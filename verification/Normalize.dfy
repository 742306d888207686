/**
 The minimal normalisation applied before a definition is hashed, in Python on values and in Go on
 maps: drop `$comment` at every level, sort and dedupe every `required` list of strings.
 */
module Normalize {
  import opened Wrappers
  import opened Utf16
  import opened Decoder

  function Ascii(s: string): Text {
    seq(|s|, i requires 0 <= i < |s| => s[i] as int)
  }

  const COMMENT: Text := Ascii("$comment")
  const REQUIRED: Text := Ascii("required")

  // ----- sorted sets of strings -----

  function InsertText(s: Text, sorted: seq<Text>): seq<Text> {
    if sorted == [] then [s]
    else if s == sorted[0] then sorted
    else if KeyLess(sorted[0], s) then [sorted[0]] + InsertText(s, sorted[1..])
    else [s] + sorted
  }

  /** `sorted(set(strings), key=utf-16-be)`. */
  function SortedSet(strings: seq<Text>): seq<Text> {
    if strings == [] then [] else InsertText(strings[0], SortedSet(strings[1..]))
  }

  lemma {:induction false} InsertTextAdds(s: Text, sorted: seq<Text>)
    ensures forall t :: t in InsertText(s, sorted) <==> t == s || t in sorted
  {
    if sorted != [] {
      InsertTextAdds(s, sorted[1..]);
      assert forall t :: t in sorted <==> t == sorted[0] || t in sorted[1..];
    }
  }

  lemma {:induction false} SortedSetMembers(strings: seq<Text>)
    ensures forall t :: t in SortedSet(strings) <==> t in strings
  {
    if strings != [] {
      SortedSetMembers(strings[1..]);
      InsertTextAdds(strings[0], SortedSet(strings[1..]));
      assert forall t :: t in strings <==> t == strings[0] || t in strings[1..];
    }
  }

  lemma SortedPrepend(s: Text, sorted: seq<Text>)
    requires StrictlySorted(sorted) && forall t | t in sorted :: KeyLess(s, t)
    ensures StrictlySorted([s] + sorted)
  {
    var r := [s] + sorted;
    forall i, j | 0 <= i < j < |r| ensures KeyLess(r[i], r[j]) {
      assert r[j] == sorted[j - 1];
      if i > 0 {
        assert r[i] == sorted[i - 1];
      }
    }
  }

  lemma {:induction false} InsertTextSorted(s: Text, sorted: seq<Text>)
    requires StrictlySorted(sorted) && AllWellFormed(sorted) && WellFormed(s)
    ensures StrictlySorted(InsertText(s, sorted)) && AllWellFormed(InsertText(s, sorted))
  {
    InsertTextAdds(s, sorted);
    if sorted != [] && s != sorted[0] {
      KeyLessIsStrictTotal(s, sorted[0], s);
      if KeyLess(sorted[0], s) {
        InsertTextSorted(s, sorted[1..]);
        InsertTextAdds(s, sorted[1..]);
        SortedPrepend(sorted[0], InsertText(s, sorted[1..]));
      } else {
        forall t | t in sorted ensures KeyLess(s, t) {
          var i :| 0 <= i < |sorted| && sorted[i] == t;
          KeyLessIsStrictTotal(s, sorted[0], sorted[i]);
        }
        SortedPrepend(s, sorted);
      }
    }
  }

  /** The result is strictly sorted and holds exactly the given strings. */
  lemma {:induction false} SortedSetIsSorted(strings: seq<Text>)
    requires AllWellFormed(strings)
    ensures StrictlySorted(SortedSet(strings)) && AllWellFormed(SortedSet(strings))
    ensures forall t :: t in SortedSet(strings) <==> t in strings
  {
    SortedSetMembers(strings);
    if strings != [] {
      SortedSetIsSorted(strings[1..]);
      InsertTextSorted(strings[0], SortedSet(strings[1..]));
    }
  }

  /** Order and repetition are exactly what it forgets. */
  lemma SortedSetForgetsOrder(a: seq<Text>, b: seq<Text>)
    requires AllWellFormed(a) && AllWellFormed(b)
    ensures SortedSet(a) == SortedSet(b) <==> forall t :: t in a <==> t in b
  {
    SortedSetIsSorted(a);
    SortedSetIsSorted(b);
    if forall t :: t in a <==> t in b {
      SortedUnique(SortedSet(a), SortedSet(b));
    }
  }

  /** `sortDedupeUTF16`: a loop that dedupes, and a sort by code units. */
  method SortDedupe(strings: seq<Text>) returns (r: seq<Text>)
    requires AllWellFormed(strings)
    ensures r == SortedSet(strings)
  {
    var seen: set<Text> := {};
    var uniq: seq<Text> := [];
    for i := 0 to |strings|
      invariant forall t :: t in seen <==> t in strings[..i]
      invariant forall t :: t in uniq <==> t in strings[..i]
      invariant forall j, k | 0 <= j < k < |uniq| :: uniq[j] != uniq[k]
      invariant AllWellFormed(uniq)
    {
      assert strings[..i + 1] == strings[..i] + [strings[i]];
      if strings[i] !in seen {
        seen := seen + {strings[i]};
        uniq := uniq + [strings[i]];
      }
    }
    assert strings[..|strings|] == strings;
    r := SortUnique(uniq);
    SortedSetIsSorted(strings);
    SortedUnique(r, SortedSet(strings));
  }

  /** Insertion in place of Go's `sort.Slice`, comparing with `Utf16Less`. */
  method SortUnique(uniq: seq<Text>) returns (r: seq<Text>)
    requires AllWellFormed(uniq) && forall j, k | 0 <= j < k < |uniq| :: uniq[j] != uniq[k]
    ensures StrictlySorted(r) && AllWellFormed(r) && forall t :: t in r <==> t in uniq
  {
    r := [];
    for i := 0 to |uniq|
      invariant StrictlySorted(r) && AllWellFormed(r)
      invariant forall t :: t in r <==> t in uniq[..i]
    {
      assert uniq[..i + 1] == uniq[..i] + [uniq[i]];
      r := InsertAt(uniq[i], r);
    }
    assert uniq[..|uniq|] == uniq;
  }

  method InsertAt(s: Text, sorted: seq<Text>) returns (r: seq<Text>)
    requires StrictlySorted(sorted) && AllWellFormed(sorted) && WellFormed(s) && s !in sorted
    ensures StrictlySorted(r) && AllWellFormed(r) && forall t :: t in r <==> t == s || t in sorted
  {
    var k := 0;
    var less := false;
    while k < |sorted| && !less
      invariant 0 <= k <= |sorted|
      invariant forall i | 0 <= i < k :: KeyLess(sorted[i], s)
      invariant less ==> k < |sorted| && KeyLess(s, sorted[k])
      decreases |sorted| - k, !less
    {
      less := Utf16Less(s, sorted[k]);
      if !less {
        KeyLessIsStrictTotal(s, sorted[k], s);
        k := k + 1;
      }
    }
    forall i | k <= i < |sorted| ensures KeyLess(s, sorted[i]) {
      KeyLessIsStrictTotal(s, sorted[k], sorted[i]);
    }
    r := sorted[..k] + [s] + sorted[k..];
    PlacedInOrder(s, sorted, k);
  }

  lemma PlacedInOrder(s: Text, sorted: seq<Text>, k: nat)
    requires StrictlySorted(sorted) && AllWellFormed(sorted) && WellFormed(s) && k <= |sorted|
    requires forall i | 0 <= i < k :: KeyLess(sorted[i], s)
    requires forall i | k <= i < |sorted| :: KeyLess(s, sorted[i])
    ensures var r := sorted[..k] + [s] + sorted[k..];
      StrictlySorted(r) && AllWellFormed(r) && forall t :: t in r <==> t == s || t in sorted
  {
    var r := sorted[..k] + [s] + sorted[k..];
    forall t ensures t in r <==> t == s || t in sorted {
      assert sorted == sorted[..k] + sorted[k..];
    }
  }

  // ----- Go: on maps -----

  predicate AllJStrings(items: seq<Jv>) {
    forall i | 0 <= i < |items| :: items[i].JStr?
  }

  function JStringsOf(items: seq<Jv>): seq<Text>
    requires AllJStrings(items)
  {
    seq(|items|, i requires 0 <= i < |items| => items[i].s)
  }

  function JStrings(strings: seq<Text>): seq<Jv> {
    seq(|strings|, i requires 0 <= i < |strings| => JStr(strings[i]))
  }

  predicate IsStringList(x: Jv) {
    x.JArr? && AllJStrings(x.items)
  }

  function SortList(x: Jv): Jv
    requires IsStringList(x)
  {
    JArr(JStrings(SortedSet(JStringsOf(x.items))))
  }

  function FixRequired(out: map<Text, Jv>): map<Text, Jv> {
    if REQUIRED in out && IsStringList(out[REQUIRED]) then out[REQUIRED := SortList(out[REQUIRED])] else out
  }

  /** `normalizeSchema`. */
  function GoNormalize(j: Jv): Jv {
    match j
    case JArr(items) => JArr(seq(|items|, i requires 0 <= i < |items| => GoNormalize(items[i])))
    case JObj(fields) => JObj(FixRequired(map k | k in fields && k != COMMENT :: GoNormalize(fields[k])))
    case _ => j
  }

  /** Every string and key is valid Unicode, as Go's decoder guarantees. */
  predicate Clean(j: Jv) {
    match j
    case JStr(s) => WellFormed(s)
    case JArr(items) => forall i | 0 <= i < |items| :: Clean(items[i])
    case JObj(fields) => forall k | k in fields :: WellFormed(k) && Clean(fields[k])
    case _ => true
  }

  /** The Go loops over map entries and slice items. */
  method NormalizeSchema(node: Jv) returns (r: Jv)
    requires Clean(node)
    ensures r == GoNormalize(node)
    decreases node
  {
    match node
    case JObj(n) =>
      var out: map<Text, Jv> := map[];
      var todo := n.Keys;
      while todo != {}
        invariant todo <= n.Keys
        invariant out.Keys == n.Keys - todo - {COMMENT}
        invariant forall k | k in out :: out[k] == GoNormalize(n[k])
        decreases |todo|
      {
        var k :| k in todo;
        todo := todo - {k};
        if k != COMMENT {
          var v := NormalizeSchema(n[k]);
          out := out[k := v];
        }
      }
      assert out == map k | k in n && k != COMMENT :: GoNormalize(n[k]);
      if REQUIRED in out && out[REQUIRED].JArr? {
        var strings := AllStrings(out[REQUIRED].items);
        if strings.Some? {
          CleanStringList(n[REQUIRED]);
          var sorted := SortDedupe(strings.value);
          out := out[REQUIRED := JArr(JStrings(sorted))];
        }
      }
      r := JObj(out);
    case JArr(n) =>
      var out: seq<Jv> := [];
      for i := 0 to |n|
        invariant |out| == i && forall j | 0 <= j < i :: out[j] == GoNormalize(n[j])
      {
        var v := NormalizeSchema(n[i]);
        out := out + [v];
      }
      r := JArr(out);
    case _ =>
      r := node;
  }

  /** `allStrings`. */
  method AllStrings(items: seq<Jv>) returns (r: Option<seq<Text>>)
    ensures r == if AllJStrings(items) then Some(JStringsOf(items)) else None
  {
    var out: seq<Text> := [];
    for i := 0 to |items|
      invariant AllJStrings(items[..i]) && out == JStringsOf(items[..i])
    {
      if !items[i].JStr? {
        return None;
      }
      out := out + [items[i].s];
    }
    assert items[..|items|] == items;
    return Some(out);
  }

  // ----- what normalising does, field by field -----

  function NormalField(k: Text, x: Jv): Jv {
    if k == REQUIRED && IsStringList(x) then SortList(x) else GoNormalize(x)
  }

  /** Normalising neither creates nor changes a list of strings. */
  lemma StringListStays(x: Jv)
    ensures IsStringList(GoNormalize(x)) <==> IsStringList(x)
    ensures IsStringList(x) ==> GoNormalize(x) == x
  {
    if x.JArr? {
      var y := GoNormalize(x);
      forall i | 0 <= i < |x.items|
        ensures y.items[i].JStr? <==> x.items[i].JStr?
        ensures x.items[i].JStr? ==> y.items[i] == x.items[i]
      {
        assert y.items[i] == GoNormalize(x.items[i]);
      }
      if IsStringList(x) {
        assert y.items == x.items;
      }
    }
  }

  lemma CleanStringList(x: Jv)
    requires Clean(x)
    ensures IsStringList(x) ==> AllWellFormed(JStringsOf(x.items))
    ensures IsStringList(GoNormalize(x)) ==> GoNormalize(x) == x && AllWellFormed(JStringsOf(GoNormalize(x).items))
  {
    StringListStays(x);
  }

  lemma NormalFields(fields: map<Text, Jv>)
    ensures GoNormalize(JObj(fields)) == JObj(map k | k in fields && k != COMMENT :: NormalField(k, fields[k]))
  {
    if REQUIRED in fields {
      StringListStays(fields[REQUIRED]);
    }
    var out := map k | k in fields && k != COMMENT :: GoNormalize(fields[k]);
    assert FixRequired(out) == map k | k in fields && k != COMMENT :: NormalField(k, fields[k]);
  }

  // ----- what it forgets -----

  function StringSet(strings: seq<Text>): (r: set<Text>)
    ensures forall t :: t in r <==> t in strings
  {
    set s | s in strings
  }

  predicate SameStrings(x: Jv, y: Jv)
    requires IsStringList(x) && IsStringList(y)
  {
    StringSet(JStringsOf(x.items)) == StringSet(JStringsOf(y.items))
  }

  /** Equal but for `$comment` entries and the order or repetition of `required` strings. */
  predicate SameContract(a: Jv, b: Jv) {
    if a.JObj? && b.JObj? then
      && a.fields.Keys - {COMMENT} == b.fields.Keys - {COMMENT}
      && forall k | k in a.fields && k != COMMENT ::
           k in b.fields
           && if k == REQUIRED && IsStringList(a.fields[k]) && IsStringList(b.fields[k])
              then SameStrings(a.fields[k], b.fields[k])
              else SameContract(a.fields[k], b.fields[k])
    else if a.JArr? && b.JArr? then
      |a.items| == |b.items| && forall i | 0 <= i < |a.items| :: SameContract(a.items[i], b.items[i])
    else a == b
  }

  lemma JStringsFaithful(a: seq<Text>, b: seq<Text>)
    ensures JStrings(a) == JStrings(b) <==> a == b
  {
    if JStrings(a) == JStrings(b) {
      assert |a| == |JStrings(a)| == |b|;
      forall i | 0 <= i < |a| ensures a[i] == b[i] {
        assert JStrings(a)[i] == JStrings(b)[i];
      }
    }
  }

  lemma SortListForgetsOrder(x: Jv, y: Jv)
    requires IsStringList(x) && IsStringList(y) && Clean(x) && Clean(y)
    ensures SortList(x) == SortList(y) <==> SameStrings(x, y)
  {
    var a, b := JStringsOf(x.items), JStringsOf(y.items);
    JStringsFaithful(SortedSet(a), SortedSet(b));
    SortedSetForgetsOrder(a, b);
    if SameStrings(x, y) {
      forall t ensures t in a <==> t in b {
        assert t in StringSet(a) <==> t in StringSet(b);
      }
    }
  }

  lemma SortListIsStringList(x: Jv)
    requires IsStringList(x)
    ensures IsStringList(SortList(x)) && JStringsOf(SortList(x).items) == SortedSet(JStringsOf(x.items))
  {
  }

  /** One field: equal once normalised exactly when it says the same. */
  lemma {:induction false} FieldForgets(k: Text, x: Jv, y: Jv)
    requires Clean(x) && Clean(y)
    ensures NormalField(k, x) == NormalField(k, y)
      <==> if k == REQUIRED && IsStringList(x) && IsStringList(y) then SameStrings(x, y) else SameContract(x, y)
    decreases x, 1
  {
    StringListStays(x);
    StringListStays(y);
    NormalizeForgets(x, y);
    if k == REQUIRED {
      if IsStringList(x) && IsStringList(y) {
        SortListForgetsOrder(x, y);
      } else if IsStringList(x) {
        SortListIsStringList(x);
      } else if IsStringList(y) {
        SortListIsStringList(y);
      }
    }
  }

  /** Two schemas normalise alike exactly when they are the same contract. */
  lemma {:induction false} NormalizeForgets(a: Jv, b: Jv)
    requires Clean(a) && Clean(b)
    ensures GoNormalize(a) == GoNormalize(b) <==> SameContract(a, b)
    decreases a, 0
  {
    if a.JObj? && b.JObj? {
      ObjectForgets(a.fields, b.fields, a);
    } else if a.JArr? && b.JArr? {
      var x, y := GoNormalize(a), GoNormalize(b);
      if |a.items| == |b.items| {
        forall i | 0 <= i < |a.items| ensures x.items[i] == y.items[i] <==> SameContract(a.items[i], b.items[i]) {
          NormalizeForgets(a.items[i], b.items[i]);
        }
        assert x.items == y.items <==> forall i | 0 <= i < |a.items| :: x.items[i] == y.items[i];
      } else {
        assert |x.items| != |y.items|;
      }
    }
  }

  lemma {:induction false} ObjectForgets(f: map<Text, Jv>, g: map<Text, Jv>, whole: Jv)
    requires whole == JObj(f) && Clean(whole) && Clean(JObj(g))
    ensures GoNormalize(whole) == GoNormalize(JObj(g)) <==> SameContract(whole, JObj(g))
    decreases whole, 0, 0
  {
    NormalFields(f);
    NormalFields(g);
    var x := map k | k in f && k != COMMENT :: NormalField(k, f[k]);
    var y := map k | k in g && k != COMMENT :: NormalField(k, g[k]);
    assert x.Keys == f.Keys - {COMMENT} && y.Keys == g.Keys - {COMMENT};
    if x.Keys == y.Keys {
      forall k | k in f && k != COMMENT
        ensures k in g
        ensures x[k] == y[k]
          <==> if k == REQUIRED && IsStringList(f[k]) && IsStringList(g[k]) then SameStrings(f[k], g[k])
               else SameContract(f[k], g[k])
      {
        assert k in x.Keys && k in y.Keys;
        FieldForgets(k, f[k], g[k]);
      }
      assert x == y <==> forall k | k in f && k != COMMENT :: x[k] == y[k];
    }
  }

  /** Normalising keeps the contract. */
  lemma {:induction false} NormalizeKeepsContract(a: Jv)
    requires Clean(a)
    ensures SameContract(GoNormalize(a), a) && Clean(GoNormalize(a))
  {
    match a
    case JArr(items) =>
      forall i | 0 <= i < |items|
        ensures SameContract(GoNormalize(items[i]), items[i]) && Clean(GoNormalize(items[i]))
      {
        NormalizeKeepsContract(items[i]);
      }
    case JObj(fields) =>
      NormalFields(fields);
      forall k | k in fields && k != COMMENT
        ensures FieldKept(k, fields[k])
      {
        NormalizeKeepsContract(fields[k]);
        KeepField(k, fields[k]);
      }
      var n := GoNormalize(a).fields;
      assert n.Keys == fields.Keys - {COMMENT};
      assert forall k | k in n :: n[k] == NormalField(k, fields[k]) && FieldKept(k, fields[k]);
    case _ =>
  }

  predicate FieldKept(k: Text, x: Jv) {
    && Clean(NormalField(k, x))
    && if k == REQUIRED && IsStringList(NormalField(k, x)) && IsStringList(x) then SameStrings(NormalField(k, x), x)
       else SameContract(NormalField(k, x), x)
  }

  lemma KeepField(k: Text, x: Jv)
    requires Clean(x) && SameContract(GoNormalize(x), x) && Clean(GoNormalize(x))
    ensures FieldKept(k, x)
  {
    if IsStringList(x) {
      var ss := JStringsOf(x.items);
      SortListIsStringList(x);
      SortedSetIsSorted(ss);
      StringListStays(x);
    }
  }

  /** Normalising twice is normalising once. */
  lemma NormalizeIsIdempotent(a: Jv)
    requires Clean(a)
    ensures GoNormalize(GoNormalize(a)) == GoNormalize(a)
  {
    NormalizeKeepsContract(a);
    NormalizeForgets(GoNormalize(a), a);
  }
}
