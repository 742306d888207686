/**
 Text as Unicode code points, and the order of RFC 8785, section 3.2.3: by UTF-16 code units.  The
 Python side compares the big-endian UTF-16 bytes, the Go side compares the code units one by one.
 */
module Utf16 {

  /** A Python character: any code point, surrogates included. */
  type CodePoint = c: int | 0 <= c < 0x11_0000
  type Text = seq<CodePoint>

  predicate IsSurrogate(c: CodePoint) {
    0xD800 <= c <= 0xDFFF
  }

  /** Text that has a UTF-8 and a UTF-16 encoding. */
  predicate WellFormed(s: Text) {
    forall i | 0 <= i < |s| :: !IsSurrogate(s[i])
  }

  /** One or two 16-bit code units of a character. */
  function Units(c: CodePoint): (u: seq<nat>)
    ensures 1 <= |u| <= 2 && forall i | 0 <= i < |u| :: u[i] < 0x1_0000
  {
    if c < 0x1_0000 then [c]
    else [0xD800 + (c - 0x1_0000) / 0x400, 0xDC00 + (c - 0x1_0000) % 0x400]
  }

  function Encode(s: Text): (u: seq<nat>)
    ensures forall i | 0 <= i < |u| :: u[i] < 0x1_0000
  {
    if s == [] then [] else Units(s[0]) + Encode(s[1..])
  }

  /** Big-endian bytes of code units. */
  function Bytes(units: seq<nat>): seq<nat> {
    if units == [] then [] else [units[0] / 0x100, units[0] % 0x100] + Bytes(units[1..])
  }

  /** Lexicographic order, as Python compares `bytes`. */
  predicate Less(a: seq<nat>, b: seq<nat>) {
    if b == [] then false
    else if a == [] then true
    else if a[0] != b[0] then a[0] < b[0]
    else Less(a[1..], b[1..])
  }

  /** `s.encode("utf-16-be") < t.encode("utf-16-be")`. */
  predicate KeyLess(s: Text, t: Text) {
    Less(Bytes(Encode(s)), Bytes(Encode(t)))
  }

  // ----- both orders are the same -----

  lemma {:induction false} BytesKeepOrder(a: seq<nat>, b: seq<nat>)
    requires forall i | 0 <= i < |a| :: a[i] < 0x1_0000
    requires forall i | 0 <= i < |b| :: b[i] < 0x1_0000
    ensures Less(Bytes(a), Bytes(b)) == Less(a, b)
  {
    if a != [] && b != [] {
      BytesKeepOrder(a[1..], b[1..]);
      var x, y := Bytes(a), Bytes(b);
      assert x[1..][1..] == Bytes(a[1..]) && y[1..][1..] == Bytes(b[1..]);
      assert Less(x, y) == if x[0] != y[0] then x[0] < y[0] else Less(x[1..], y[1..]);
      assert Less(x[1..], y[1..]) == if x[1] != y[1] then x[1] < y[1] else Less(x[1..][1..], y[1..][1..]);
      assert a[0] == (a[0] / 0x100) * 0x100 + a[0] % 0x100;
    }
  }

  /** Comparing UTF-16 bytes is comparing UTF-16 code units. */
  lemma KeyLessByUnits(s: Text, t: Text)
    ensures KeyLess(s, t) == Less(Encode(s), Encode(t))
  {
    BytesKeepOrder(Encode(s), Encode(t));
  }

  /** `utf16Less` of the Go port. */
  method Utf16Less(a: Text, b: Text) returns (less: bool)
    ensures less == KeyLess(a, b)
  {
    KeyLessByUnits(a, b);
    var ua, ub := Encode(a), Encode(b);
    var n := |ua|;
    if |ub| < n {
      n := |ub|;
    }
    for i := 0 to n
      invariant Less(ua, ub) == Less(ua[i..], ub[i..])
    {
      assert ua[i..][1..] == ua[i + 1..] && ub[i..][1..] == ub[i + 1..];
      if ua[i] != ub[i] {
        return ua[i] < ub[i];
      }
    }
    return |ua| < |ub|;
  }

  // ----- a strict total order on well-formed text -----

  lemma {:induction false} LessIrreflexive(a: seq<nat>)
    ensures !Less(a, a)
  {
    if a != [] {
      LessIrreflexive(a[1..]);
    }
  }

  lemma {:induction false} LessTransitive(a: seq<nat>, b: seq<nat>, c: seq<nat>)
    requires Less(a, b) && Less(b, c)
    ensures Less(a, c)
  {
    if a != [] && a[0] == b[0] == c[0] {
      LessTransitive(a[1..], b[1..], c[1..]);
    }
  }

  lemma {:induction false} LessTotal(a: seq<nat>, b: seq<nat>)
    ensures Less(a, b) || a == b || Less(b, a)
  {
    if a != [] && b != [] && a[0] == b[0] {
      LessTotal(a[1..], b[1..]);
      assert a == [a[0]] + a[1..] && b == [b[0]] + b[1..];
    }
  }

  /** Well-formed text can be read back from its code units. */
  lemma {:induction false} EncodeInjective(s: Text, t: Text)
    requires WellFormed(s) && WellFormed(t) && Encode(s) == Encode(t)
    ensures s == t
  {
    if s != [] && t != [] {
      var u := Encode(s);
      assert u[0] == Units(s[0])[0] == Units(t[0])[0];
      assert |Units(s[0])| == |Units(t[0])|;
      if |Units(s[0])| == 2 {
        assert u[1] == Units(s[0])[1] == Units(t[0])[1];
        assert (s[0] - 0x1_0000) / 0x400 == (t[0] - 0x1_0000) / 0x400;
        assert (s[0] - 0x1_0000) % 0x400 == (t[0] - 0x1_0000) % 0x400;
      }
      assert s[0] == t[0];
      assert Encode(s[1..]) == u[|Units(s[0])|..] == Encode(t[1..]);
      EncodeInjective(s[1..], t[1..]);
      assert s == [s[0]] + s[1..] && t == [t[0]] + t[1..];
    }
  }

  /** The order of RFC 8785 is a strict total order on text that can be encoded. */
  lemma KeyLessIsStrictTotal(a: Text, b: Text, c: Text)
    requires WellFormed(a) && WellFormed(b) && WellFormed(c)
    ensures !KeyLess(a, a)
    ensures KeyLess(a, b) || a == b || KeyLess(b, a)
    ensures KeyLess(a, b) && KeyLess(b, c) ==> KeyLess(a, c)
    ensures KeyLess(a, b) ==> !KeyLess(b, a)
  {
    KeyLessByUnits(a, a);
    KeyLessByUnits(a, b);
    KeyLessByUnits(b, a);
    KeyLessByUnits(b, c);
    KeyLessByUnits(a, c);
    LessIrreflexive(Encode(a));
    LessTotal(Encode(a), Encode(b));
    if Encode(a) == Encode(b) {
      EncodeInjective(a, b);
    }
    if KeyLess(a, b) && KeyLess(b, c) {
      LessTransitive(Encode(a), Encode(b), Encode(c));
    }
    if KeyLess(a, b) && KeyLess(b, a) {
      LessTransitive(Encode(a), Encode(b), Encode(a));
    }
  }

  // ----- sorted sets of keys -----

  predicate StrictlySorted(keys: seq<Text>) {
    forall i, j | 0 <= i < j < |keys| :: KeyLess(keys[i], keys[j])
  }

  predicate AllWellFormed(keys: seq<Text>) {
    forall i | 0 <= i < |keys| :: WellFormed(keys[i])
  }

  /** Two strictly sorted lists with the same members are the same list. */
  lemma {:induction false} SortedUnique(a: seq<Text>, b: seq<Text>)
    requires StrictlySorted(a) && StrictlySorted(b) && AllWellFormed(a) && AllWellFormed(b)
    requires forall k :: k in a <==> k in b
    ensures a == b
  {
    FirstIsMember(a);
    FirstIsMember(b);
    if a != [] {
      SameLeast(a, b);
      forall k ensures k in a[1..] <==> k in b[1..] {
        TailMembers(a, k);
        TailMembers(b, k);
      }
      SortedUnique(a[1..], b[1..]);
      assert a == [a[0]] + a[1..] && b == [b[0]] + b[1..];
    }
  }

  lemma FirstIsMember(a: seq<Text>)
    ensures a != [] ==> a[0] in a
  {
  }

  lemma SameLeast(a: seq<Text>, b: seq<Text>)
    requires StrictlySorted(a) && StrictlySorted(b) && AllWellFormed(a) && AllWellFormed(b)
    requires a != [] && b != [] && forall k :: k in a <==> k in b
    ensures a[0] == b[0]
  {
    FirstIsMember(a);
    FirstIsMember(b);
    assert a[0] in b && b[0] in a;
    var i :| 0 <= i < |b| && b[i] == a[0];
    var j :| 0 <= j < |a| && a[j] == b[0];
    if i > 0 && j > 0 {
      assert KeyLess(b[0], b[i]) && KeyLess(a[0], a[j]);
      KeyLessIsStrictTotal(a[0], b[0], a[0]);
    }
  }

  lemma TailMembers(a: seq<Text>, k: Text)
    requires a != [] && StrictlySorted(a) && AllWellFormed(a)
    ensures k in a[1..] <==> k in a && k != a[0]
  {
    if k in a[1..] {
      var i :| 1 <= i < |a| && a[i] == k;
      assert KeyLess(a[0], a[i]);
      KeyLessIsStrictTotal(a[0], a[0], a[0]);
    }
  }
}
