/**
 The RFC 8785 printer of `schema/canonical.py`: Python values, string escapes, and objects printed in
 the order of their keys.
 */
module Canonical {
  import opened Wrappers
  import opened Utf16
  import opened Numbers

  /** A finite float, by its shortest decimal digits; -0.0 is zero. */
  type Finite = n: Num | Normal(n) witness Zero

  /** A Python value; `Other` is any object the printer has no case for. */
  datatype Value =
    | Null
    | Bool(b: bool)
    | Int(i: int)
    | Float(n: Finite)
    | NonFinite
    | Str(s: Text)
    | Arr(items: seq<Value>)
    | Obj(members: seq<Member>)
    | Other

  datatype Member = Member(key: Text, value: Value)

  predicate DistinctKeys(members: seq<Member>) {
    forall i, j | 0 <= i < j < |members| :: members[i].key != members[j].key
  }

  /** Every dict has distinct keys, as Python guarantees. */
  predicate Proper(v: Value) {
    match v
    case Arr(items) => forall i | 0 <= i < |items| :: Proper(items[i])
    case Obj(members) => DistinctKeys(members) && forall i | 0 <= i < |members| :: Proper(members[i].value)
    case _ => true
  }

  // ----- strings -----

  const QUOTE: CodePoint := 0x22
  const BACKSLASH: CodePoint := 0x5C
  const COMMA: CodePoint := 0x2C
  const COLON: CodePoint := 0x3A
  const OPEN_BRACKET: CodePoint := 0x5B
  const CLOSE_BRACKET: CodePoint := 0x5D
  const OPEN_BRACE: CodePoint := 0x7B
  const CLOSE_BRACE: CodePoint := 0x7D
  const LETTER_U: CodePoint := 0x75

  const NULL_TEXT: Text := [0x6E, 0x75, 0x6C, 0x6C]
  const TRUE_TEXT: Text := [0x74, 0x72, 0x75, 0x65]
  const FALSE_TEXT: Text := [0x66, 0x61, 0x6C, 0x73, 0x65]

  function HexDigit(n: nat): CodePoint
    requires n < 16
  {
    if n < 10 then 0x30 + n else 0x57 + n
  }

  /** The two-character escapes. */
  function ShortEscape(c: CodePoint): Option<CodePoint> {
    if c == QUOTE then Some(QUOTE)
    else if c == BACKSLASH then Some(BACKSLASH)
    else if c == 0x08 then Some(0x62)
    else if c == 0x0C then Some(0x66)
    else if c == 0x0A then Some(0x6E)
    else if c == 0x0D then Some(0x72)
    else if c == 0x09 then Some(0x74)
    else None
  }

  function Escape(c: CodePoint): Text {
    match ShortEscape(c)
    case Some(e) => [BACKSLASH, e]
    case None =>
      if c < 0x20 then [BACKSLASH, LETTER_U, 0x30, 0x30, HexDigit(c / 16), HexDigit(c % 16)] else [c]
  }

  function EscapeAll(s: Text): Text {
    if s == [] then [] else Escape(s[0]) + EscapeAll(s[1..])
  }

  /** What `_encode_string` returns; it raises on a lone surrogate. */
  function StringText(s: Text): Option<Text> {
    if WellFormed(s) then Some([QUOTE] + EscapeAll(s) + [QUOTE]) else None
  }

  lemma {:induction false} EscapeAllSnoc(s: Text, c: CodePoint)
    ensures EscapeAll(s + [c]) == EscapeAll(s) + Escape(c)
  {
    if s == [] {
      assert s + [c] == [c] && EscapeAll([c][1..]) == [];
    } else {
      EscapeAllSnoc(s[1..], c);
      assert (s + [c])[1..] == s[1..] + [c];
    }
  }

  method EncodeString(s: Text) returns (r: Option<Text>)
    ensures r == StringText(s)
  {
    var out := [QUOTE];
    for i := 0 to |s|
      invariant WellFormed(s[..i])
      invariant out == [QUOTE] + EscapeAll(s[..i])
    {
      assert s[..i + 1] == s[..i] + [s[i]];
      EscapeAllSnoc(s[..i], s[i]);
      var short := ShortEscape(s[i]);
      if short.Some? {
        out := out + [BACKSLASH, short.value];
      } else if s[i] < 0x20 {
        out := out + [BACKSLASH, LETTER_U, 0x30, 0x30, HexDigit(s[i] / 16), HexDigit(s[i] % 16)];
      } else if IsSurrogate(s[i]) {
        return None;
      } else {
        out := out + [s[i]];
      }
    }
    assert s[..|s|] == s;
    return Some(out + [QUOTE]);
  }

  // ----- sorting members by key -----

  function KeysOf(members: seq<Member>): seq<Text> {
    seq(|members|, i requires 0 <= i < |members| => members[i].key)
  }

  function InsertByKey(m: Member, sorted: seq<Member>): (r: seq<Member>)
    ensures multiset(r) == multiset{m} + multiset(sorted)
  {
    if sorted == [] then [m]
    else if KeyLess(sorted[0].key, m.key) then
      assert sorted == [sorted[0]] + sorted[1..];
      [sorted[0]] + InsertByKey(m, sorted[1..])
    else [m] + sorted
  }

  /** `sorted(value.items(), key=...)`. */
  function SortByKey(members: seq<Member>): (r: seq<Member>)
    ensures multiset(r) == multiset(members)
  {
    if members == [] then []
    else
      assert members == [members[0]] + members[1..];
      InsertByKey(members[0], SortByKey(members[1..]))
  }

  lemma SortKeepsMembers(members: seq<Member>)
    ensures |SortByKey(members)| == |members|
    ensures forall m :: m in SortByKey(members) <==> m in members
  {
    var r := SortByKey(members);
    assert |multiset(r)| == |multiset(members)|;
    forall m ensures m in r <==> m in members {
      assert m in r <==> m in multiset(r);
      assert m in members <==> m in multiset(members);
    }
  }

  lemma {:induction false} InsertStaysAbove(k: Text, m: Member, sorted: seq<Member>)
    requires KeyLess(k, m.key) && forall i | 0 <= i < |sorted| :: KeyLess(k, sorted[i].key)
    ensures forall i | 0 <= i < |InsertByKey(m, sorted)| :: KeyLess(k, InsertByKey(m, sorted)[i].key)
  {
    if sorted != [] {
      InsertStaysAbove(k, m, sorted[1..]);
    }
  }

  /** The first key of a strictly sorted list is below the others, and so is anything below it. */
  lemma FirstIsLeast(sorted: seq<Member>, k: Text)
    requires sorted != [] && StrictlySorted(KeysOf(sorted)) && AllWellFormed(KeysOf(sorted)) && WellFormed(k)
    ensures forall i | 0 < i < |sorted| :: KeyLess(sorted[0].key, sorted[i].key)
    ensures KeyLess(k, sorted[0].key) ==> forall i | 0 <= i < |sorted| :: KeyLess(k, sorted[i].key)
  {
    var keys := KeysOf(sorted);
    forall i | 0 < i < |sorted|
      ensures KeyLess(sorted[0].key, sorted[i].key)
      ensures KeyLess(k, sorted[0].key) ==> KeyLess(k, sorted[i].key)
    {
      assert KeyLess(keys[0], keys[i]) && WellFormed(keys[0]) && WellFormed(keys[i]);
      KeyLessIsStrictTotal(k, keys[0], keys[i]);
    }
  }

  lemma {:induction false} InsertKeepsSorted(m: Member, sorted: seq<Member>)
    requires StrictlySorted(KeysOf(sorted)) && AllWellFormed(KeysOf(sorted)) && WellFormed(m.key)
    requires forall i | 0 <= i < |sorted| :: sorted[i].key != m.key
    ensures StrictlySorted(KeysOf(InsertByKey(m, sorted))) && AllWellFormed(KeysOf(InsertByKey(m, sorted)))
  {
    if sorted != [] {
      SortedTail(sorted);
      FirstIsLeast(sorted, m.key);
      KeyLessIsStrictTotal(m.key, sorted[0].key, m.key);
      if KeyLess(sorted[0].key, m.key) {
        InsertKeepsSorted(m, sorted[1..]);
        InsertStaysAbove(sorted[0].key, m, sorted[1..]);
        SortedCons(sorted[0], InsertByKey(m, sorted[1..]));
      } else {
        SortedCons(m, sorted);
      }
    }
  }

  lemma SortedTail(sorted: seq<Member>)
    requires sorted != [] && StrictlySorted(KeysOf(sorted)) && AllWellFormed(KeysOf(sorted))
    ensures StrictlySorted(KeysOf(sorted[1..])) && AllWellFormed(KeysOf(sorted[1..]))
    ensures WellFormed(sorted[0].key)
  {
    assert KeysOf(sorted[1..]) == KeysOf(sorted)[1..];
    assert KeysOf(sorted)[0] == sorted[0].key;
  }

  lemma SortedCons(m: Member, tail: seq<Member>)
    requires StrictlySorted(KeysOf(tail)) && AllWellFormed(KeysOf(tail)) && WellFormed(m.key)
    requires forall i | 0 <= i < |tail| :: KeyLess(m.key, tail[i].key)
    ensures StrictlySorted(KeysOf([m] + tail)) && AllWellFormed(KeysOf([m] + tail))
  {
    assert KeysOf([m] + tail) == [m.key] + KeysOf(tail);
  }

  /** Sorting the members of a dict puts their keys in strictly increasing order. */
  lemma {:induction false} SortIsSorted(members: seq<Member>)
    requires DistinctKeys(members) && AllWellFormed(KeysOf(members))
    ensures StrictlySorted(KeysOf(SortByKey(members))) && AllWellFormed(KeysOf(SortByKey(members)))
  {
    if members != [] {
      var tail := members[1..];
      assert KeysOf(tail) == KeysOf(members)[1..];
      SortIsSorted(tail);
      SortKeepsMembers(tail);
      var st := SortByKey(tail);
      forall i | 0 <= i < |st| ensures st[i].key != members[0].key {
        assert st[i] in tail;
        var j :| 0 <= j < |tail| && tail[j] == st[i];
        assert members[j + 1] == st[i];
      }
      assert KeysOf(members)[0] == members[0].key;
      InsertKeepsSorted(members[0], st);
    }
  }

  lemma SortedKeysAreDistinct(members: seq<Member>)
    requires StrictlySorted(KeysOf(members)) && AllWellFormed(KeysOf(members))
    ensures DistinctKeys(members)
  {
    forall i, j | 0 <= i < j < |members| ensures members[i].key != members[j].key {
      assert KeyLess(KeysOf(members)[i], KeysOf(members)[j]);
      assert WellFormed(KeysOf(members)[i]);
      KeyLessIsStrictTotal(members[i].key, members[i].key, members[i].key);
    }
  }

  // ----- the printer -----

  /** `_encode_number` of an int: it refuses what a double cannot hold exactly. */
  function IntJson(n: int): Option<Text> {
    if n < -SAFE || n > SAFE then None else Some(IntText(n))
  }

  /** `canonical_json`; None where Python raises. */
  function Print(v: Value): Option<Text>
    decreases v, 1, 0
  {
    match v
    case Null => Some(NULL_TEXT)
    case Bool(b) => Some(if b then TRUE_TEXT else FALSE_TEXT)
    case Int(i) => IntJson(i)
    case Float(n) => Some(NumText(n))
    case NonFinite => None
    case Str(s) => StringText(s)
    case Arr(items) =>
      var t :- PrintItems(v, items);
      Some([OPEN_BRACKET] + t + [CLOSE_BRACKET])
    case Obj(members) =>
      if !AllWellFormed(KeysOf(members)) then None
      else
        SortKeepsMembers(members);
        var t :- PrintMembers(v, SortByKey(members));
        Some([OPEN_BRACE] + t + [CLOSE_BRACE])
    case Other => None
  }

  /** The items of an array `parent`, joined by commas. */
  function PrintItems(parent: Value, items: seq<Value>): Option<Text>
    requires parent.Arr? && forall x | x in items :: x in parent.items
    decreases parent, 0, |items|
  {
    if items == [] then Some([])
    else
      assert items[0] in items;
      var head :- Print(items[0]);
      if |items| == 1 then Some(head)
      else
        var tail :- PrintItems(parent, items[1..]);
        Some(head + [COMMA] + tail)
  }

  function PrintMember(parent: Value, m: Member): Option<Text>
    requires parent.Obj? && m in parent.members
    decreases parent, 0, 0
  {
    var key :- StringText(m.key);
    var value :- Print(m.value);
    Some(key + [COLON] + value)
  }

  /** Members of an object `parent`, joined by commas. */
  function PrintMembers(parent: Value, members: seq<Member>): Option<Text>
    requires parent.Obj? && forall m | m in members :: m in parent.members
    decreases parent, 0, |members|
  {
    if members == [] then Some([])
    else
      var head :- PrintMember(parent, members[0]);
      if |members| == 1 then Some(head)
      else
        var tail :- PrintMembers(parent, members[1..]);
        Some(head + [COMMA] + tail)
  }

  /** The values RFC 8785 can carry from one language to another. */
  predicate Accepted(v: Value) {
    match v
    case Null => true
    case Bool(_) => true
    case Int(i) => -SAFE <= i <= SAFE
    case Float(_) => true
    case NonFinite => false
    case Str(s) => WellFormed(s)
    case Arr(items) => forall i | 0 <= i < |items| :: Accepted(items[i])
    case Obj(members) =>
      forall i | 0 <= i < |members| :: WellFormed(members[i].key) && Accepted(members[i].value)
    case Other => false
  }

  /** The printer raises exactly on the values outside `Accepted`. */
  lemma {:induction false} PrintsExactlyAccepted(v: Value)
    ensures Print(v).Some? <==> Accepted(v)
    decreases v, 1, 0
  {
    if v.Arr? {
      ItemsPrintIffAccepted(v, v.items);
      assert (forall x | x in v.items :: Accepted(x)) <==> (forall i | 0 <= i < |v.items| :: Accepted(v.items[i]));
    } else if v.Obj? {
      ObjectPrintsIffAccepted(v);
    }
  }

  lemma {:induction false} ObjectPrintsIffAccepted(v: Value)
    requires v.Obj?
    ensures Print(v).Some? <==> Accepted(v)
    decreases v, 0, |v.members| + 1
  {
    var members := v.members;
    SortKeepsMembers(members);
    MembersPrintIffAccepted(v, SortByKey(members));
    KeysEncodable(members);
    MembersAcceptable(members);
  }

  lemma MembersAcceptable(members: seq<Member>)
    ensures (forall m | m in members :: WellFormed(m.key) && Accepted(m.value))
       <==> (forall i | 0 <= i < |members| :: WellFormed(members[i].key) && Accepted(members[i].value))
  {
  }

  lemma KeysEncodable(members: seq<Member>)
    ensures AllWellFormed(KeysOf(members)) <==> forall m | m in members :: WellFormed(m.key)
  {
    assert forall i | 0 <= i < |members| :: KeysOf(members)[i] == members[i].key;
  }

  lemma {:induction false} ItemsPrintIffAccepted(parent: Value, items: seq<Value>)
    requires parent.Arr? && forall x | x in items :: x in parent.items
    ensures PrintItems(parent, items).Some? <==> forall x | x in items :: Accepted(x)
    decreases parent, 0, |items|
  {
    if items != [] {
      assert items[0] in items;
      PrintsExactlyAccepted(items[0]);
      ItemsPrintIffAccepted(parent, items[1..]);
      assert forall x :: x in items <==> x == items[0] || x in items[1..];
    }
  }

  lemma {:induction false} MembersPrintIffAccepted(parent: Value, members: seq<Member>)
    requires parent.Obj? && forall m | m in members :: m in parent.members
    ensures PrintMembers(parent, members).Some? <==> forall m | m in members :: WellFormed(m.key) && Accepted(m.value)
    decreases parent, 0, |members|
  {
    if members != [] {
      assert members[0] in parent.members;
      PrintsExactlyAccepted(members[0].value);
      MembersPrintIffAccepted(parent, members[1..]);
      assert forall m :: m in members <==> m == members[0] || m in members[1..];
    }
  }
}
