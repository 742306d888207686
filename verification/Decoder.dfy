/**
 What a canonical text means, and a decoder that recovers it: the printer is unambiguous and its text
 depends on nothing but the JSON value.
 */
module Decoder {
  import opened Wrappers
  import opened Utf16
  import opened Numbers
  import opened Canonical

  /** A JSON value: numbers by value, objects as maps. */
  datatype Jv =
    | JNull
    | JBool(b: bool)
    | JNum(n: Num)
    | JStr(s: Text)
    | JArr(items: seq<Jv>)
    | JObj(fields: map<Text, Jv>)

  /** The JSON value of an accepted Python value: int and float merge, dict order is forgotten. */
  function Meaning(v: Value): Jv
    requires Accepted(v)
  {
    match v
    case Null => JNull
    case Bool(b) => JBool(b)
    case Int(i) => JNum(NumOfInt(i))
    case Float(n) => JNum(n)
    case Str(s) => JStr(s)
    case Arr(items) => JArr(MeaningOfItems(items))
    case Obj(members) => JObj(MeaningOfMembers(members))
  }

  function MeaningOfItems(items: seq<Value>): (r: seq<Jv>)
    requires forall i | 0 <= i < |items| :: Accepted(items[i])
    ensures |r| == |items|
  {
    if items == [] then [] else [Meaning(items[0])] + MeaningOfItems(items[1..])
  }

  predicate AcceptedMembers(members: seq<Member>) {
    forall i | 0 <= i < |members| :: WellFormed(members[i].key) && Accepted(members[i].value)
  }

  function MeaningOfMembers(members: seq<Member>): map<Text, Jv>
    requires AcceptedMembers(members)
  {
    if members == [] then map[] else MeaningOfMembers(members[1..])[members[0].key := Meaning(members[0].value)]
  }

  // ----- the decoder -----

  function HexValue(c: CodePoint): Option<nat> {
    if 0x30 <= c <= 0x39 then Some(c - 0x30) else if 0x61 <= c <= 0x66 then Some(c - 0x57) else None
  }

  function ReadHex(t: Text): Option<CodePoint>
    requires |t| == 4
  {
    var a :- HexValue(t[0]);
    var b :- HexValue(t[1]);
    var c :- HexValue(t[2]);
    var d :- HexValue(t[3]);
    if a < 16 && b < 16 && c < 16 && d < 16 then Some(a * 0x1000 + b * 0x100 + c * 0x10 + d) else None
  }

  function Unescape(c: CodePoint): Option<CodePoint> {
    if c == QUOTE || c == BACKSLASH then Some(c)
    else if c == 0x62 then Some(0x08)
    else if c == 0x66 then Some(0x0C)
    else if c == 0x6E then Some(0x0A)
    else if c == 0x72 then Some(0x0D)
    else if c == 0x74 then Some(0x09)
    else None
  }

  /** One character of a string body; raw control characters are refused. */
  function DecodeChar(t: Text): (r: Option<(CodePoint, Text)>)
    ensures r.Some? ==> |r.value.1| < |t|
  {
    if t == [] || t[0] < 0x20 then None
    else if t[0] != BACKSLASH then Some((t[0], t[1..]))
    else if |t| >= 6 && t[1] == LETTER_U then
      var c :- ReadHex(t[2..6]);
      Some((c, t[6..]))
    else if |t| >= 2 then
      var c :- Unescape(t[1]);
      Some((c, t[2..]))
    else None
  }

  /** A string body and its closing quote. */
  function DecodeString(t: Text): (r: Option<(Text, Text)>)
    ensures r.Some? ==> |r.value.1| < |t|
  {
    if t == [] then None
    else if t[0] == QUOTE then Some(([], t[1..]))
    else
      var c :- DecodeChar(t);
      var s :- DecodeString(c.1);
      Some(([c.0] + s.0, s.1))
  }

  predicate StartsWith(t: Text, p: Text) {
    |t| >= |p| && t[..|p|] == p
  }

  function DecodeValue(t: Text): (r: Option<(Jv, Text)>)
    ensures r.Some? ==> |r.value.1| < |t|
    decreases |t|, 0
  {
    if t == [] then None
    else if t[0] == QUOTE then
      var s :- DecodeString(t[1..]);
      Some((JStr(s.0), s.1))
    else if t[0] == OPEN_BRACKET then
      if |t| > 1 && t[1] == CLOSE_BRACKET then Some((JArr([]), t[2..]))
      else
        var items :- DecodeItems(t[1..]);
        Some((JArr(items.0), items.1))
    else if t[0] == OPEN_BRACE then
      if |t| > 1 && t[1] == CLOSE_BRACE then Some((JObj(map[]), t[2..]))
      else
        var fields :- DecodeMembers(t[1..]);
        Some((JObj(fields.0), fields.1))
    else if StartsWith(t, NULL_TEXT) then Some((JNull, t[4..]))
    else if StartsWith(t, TRUE_TEXT) then Some((JBool(true), t[4..]))
    else if StartsWith(t, FALSE_TEXT) then Some((JBool(false), t[5..]))
    else
      var n :- ReadNumber(t);
      Some((JNum(n.0), n.1))
  }

  /** One or more items up to the closing bracket. */
  function DecodeItems(t: Text): (r: Option<(seq<Jv>, Text)>)
    ensures r.Some? ==> |r.value.1| < |t|
    decreases |t|, 1
  {
    var head :- DecodeValue(t);
    if head.1 != [] && head.1[0] == CLOSE_BRACKET then Some(([head.0], head.1[1..]))
    else if head.1 != [] && head.1[0] == COMMA then
      var tail :- DecodeItems(head.1[1..]);
      Some(([head.0] + tail.0, tail.1))
    else None
  }

  function DecodeMember(t: Text): (r: Option<(Text, Jv, Text)>)
    ensures r.Some? ==> |r.value.2| < |t|
    decreases |t|, 1
  {
    if t == [] || t[0] != QUOTE then None
    else
      var key :- DecodeString(t[1..]);
      if key.1 == [] || key.1[0] != COLON then None
      else
        var value :- DecodeValue(key.1[1..]);
        Some((key.0, value.0, value.1))
  }

  /** One or more members up to the closing brace. */
  function DecodeMembers(t: Text): (r: Option<(map<Text, Jv>, Text)>)
    ensures r.Some? ==> |r.value.1| < |t|
    decreases |t|, 2
  {
    var head :- DecodeMember(t);
    if head.2 != [] && head.2[0] == CLOSE_BRACE then Some((map[head.0 := head.1], head.2[1..]))
    else if head.2 != [] && head.2[0] == COMMA then
      var tail :- DecodeMembers(head.2[1..]);
      Some((tail.0[head.0 := head.1], tail.1))
    else None
  }

  // ----- strings read back -----

  lemma HexRoundTrip(n: nat)
    requires n < 16
    ensures HexValue(HexDigit(n)) == Some(n)
  {
  }

  lemma DecodeEscape(c: CodePoint, rest: Text)
    requires !IsSurrogate(c)
    ensures DecodeChar(Escape(c) + rest) == Some((c, rest))
    ensures Escape(c)[0] != QUOTE
  {
    var t := Escape(c) + rest;
    if ShortEscape(c).Some? {
      assert t[2..] == rest;
    } else if c < 0x20 {
      HexRoundTrip(c / 16);
      HexRoundTrip(c % 16);
      assert t[6..] == rest;
      assert t[2..6] == [0x30, 0x30, HexDigit(c / 16), HexDigit(c % 16)];
    } else {
      assert t[1..] == rest;
    }
  }

  lemma DecodeStringStep(t: Text, c: CodePoint, more: Text, s: Text, rest: Text)
    requires t != [] && t[0] != QUOTE && DecodeChar(t) == Some((c, more)) && DecodeString(more) == Some((s, rest))
    ensures DecodeString(t) == Some(([c] + s, rest))
  {
  }

  lemma {:induction false} DecodeEscaped(s: Text, rest: Text)
    requires WellFormed(s)
    ensures DecodeString(EscapeAll(s) + ([QUOTE] + rest)) == Some((s, rest))
  {
    var end := [QUOTE] + rest;
    if s == [] {
      assert EscapeAll(s) + end == end;
      assert end[1..] == rest;
    } else {
      var more := EscapeAll(s[1..]) + end;
      DecodeEscaped(s[1..], rest);
      DecodeEscape(s[0], more);
      DecodeStringStep(Escape(s[0]) + more, s[0], more, s[1..], rest);
      Regroup3(Escape(s[0]), EscapeAll(s[1..]), end);
      assert [s[0]] + s[1..] == s;
    }
  }

  lemma DecodePrintedString(s: Text, rest: Text)
    requires WellFormed(s)
    ensures var t := StringText(s).value + rest; t[0] == QUOTE && DecodeString(t[1..]) == Some((s, rest))
  {
    DecodeEscaped(s, rest);
    var t := StringText(s).value + rest;
    assert t[1..] == EscapeAll(s) + ([QUOTE] + rest);
  }

  // ----- numbers read back -----

  predicate NumberStart(c: CodePoint) {
    c == MINUS || IsDigitChar(c)
  }

  /** Text that starts like a number is decoded as a number. */
  lemma DecodeNumber(t: Text, n: Num, rest: Text)
    requires t != [] && NumberStart(t[0]) && ReadNumber(t) == Some((n, rest))
    ensures DecodeValue(t) == Some((JNum(n), rest))
  {
    NotStarting(t, NULL_TEXT);
    NotStarting(t, TRUE_TEXT);
    NotStarting(t, FALSE_TEXT);
  }

  lemma NotStarting(t: Text, p: Text)
    requires t != [] && p != [] && t[0] != p[0]
    ensures !StartsWith(t, p)
  {
    assert |t| >= |p| ==> t[..|p|][0] == t[0];
  }

  lemma DigitsStart(ds: Digits, t: Text)
    requires ds != []
    ensures IsDigitChar((ToText(ds) + t)[0])
  {
  }

  lemma NumberTextStarts(n: Num)
    requires Normal(n)
    ensures NumText(n) != [] && NumberStart(NumText(n)[0])
  {
    if n.Decimal? {
      LayoutStarts(n.digits, n.exp);
    }
  }

  lemma LayoutStarts(digits: Digits, exp: int)
    requires digits != []
    ensures Layout(digits, exp) != [] && IsDigitChar(Layout(digits, exp)[0])
  {
    var e := exp + |digits|;
    if |digits| <= e <= 21 {
      DigitsStart(digits + Zeros(e - |digits|), []);
    } else if 0 < e <= 21 {
      DigitsStart(digits[..e], [POINT] + ToText(digits[e..]));
    }
  }

  lemma DecodePrintedNumber(n: Num, rest: Text)
    requires Normal(n) && Delimited(rest)
    ensures DecodeValue(NumText(n) + rest) == Some((JNum(n), rest))
  {
    NumberTextStarts(n);
    NumberRoundTrip(n, rest);
    DecodeNumber(NumText(n) + rest, n, rest);
  }

  // ----- values read back -----

  /** Printed text is never empty and never starts with a closing bracket. */
  lemma PrintStarts(v: Value)
    requires Accepted(v)
    ensures Print(v).Some? && Print(v).value != [] && Print(v).value[0] != CLOSE_BRACKET
  {
    PrintsExactlyAccepted(v);
    match v
    case Int(i) =>
      IntTextIsNumText(i);
      NumberTextStarts(NumOfInt(i));
    case Float(n) => NumberTextStarts(n);
    case _ =>
  }

  lemma ItemsLast(t: Text, x: Jv, rest: Text)
    requires DecodeValue(t) == Some((x, [CLOSE_BRACKET] + rest))
    ensures DecodeItems(t) == Some(([x], rest))
  {
    assert ([CLOSE_BRACKET] + rest)[1..] == rest;
  }

  lemma ItemsMore(t: Text, x: Jv, more: Text, xs: seq<Jv>, rest: Text)
    requires DecodeValue(t) == Some((x, [COMMA] + more)) && DecodeItems(more) == Some((xs, rest))
    ensures DecodeItems(t) == Some(([x] + xs, rest))
  {
    assert ([COMMA] + more)[1..] == more;
  }

  lemma MemberRead(t: Text, key: Text, more: Text, x: Jv, rest: Text)
    requires t != [] && t[0] == QUOTE && DecodeString(t[1..]) == Some((key, [COLON] + more))
    requires DecodeValue(more) == Some((x, rest))
    ensures DecodeMember(t) == Some((key, x, rest))
  {
    assert ([COLON] + more)[1..] == more;
  }

  lemma MembersLast(t: Text, key: Text, x: Jv, rest: Text)
    requires DecodeMember(t) == Some((key, x, [CLOSE_BRACE] + rest))
    ensures DecodeMembers(t) == Some((map[key := x], rest))
  {
    assert ([CLOSE_BRACE] + rest)[1..] == rest;
  }

  lemma MembersMore(t: Text, key: Text, x: Jv, more: Text, fields: map<Text, Jv>, rest: Text)
    requires DecodeMember(t) == Some((key, x, [COMMA] + more)) && DecodeMembers(more) == Some((fields, rest))
    ensures DecodeMembers(t) == Some((fields[key := x], rest))
  {
    assert ([COMMA] + more)[1..] == more;
  }

  lemma Regroup3(a: Text, b: Text, c: Text)
    ensures a + b + c == a + (b + c)
  {
  }

  lemma RegroupList(a: Text, comma: Text, b: Text, close: Text)
    ensures (a + comma + b) + close == a + (comma + (b + close))
  {
  }

  lemma {:induction false} ItemsReadBack(parent: Value, items: seq<Value>, rest: Text)
    requires parent.Arr? && items != [] && forall x | x in items :: x in parent.items
    requires forall i | 0 <= i < |items| :: Accepted(items[i]) && Proper(items[i])
    ensures PrintItems(parent, items).Some?
    ensures DecodeItems(PrintItems(parent, items).value + ([CLOSE_BRACKET] + rest))
      == Some((MeaningOfItems(items), rest))
    decreases parent, 0, |items|
  {
    var close := [CLOSE_BRACKET] + rest;
    var x := items[0];
    assert x in items;
    if |items| == 1 {
      ReadsBack(x, close);
      ItemsLast(Print(x).value + close, Meaning(x), rest);
      assert MeaningOfItems(items) == [Meaning(x)] + MeaningOfItems(items[1..]) == [Meaning(x)];
    } else {
      var tail := items[1..];
      ItemsReadBack(parent, tail, rest);
      var more := PrintItems(parent, tail).value + close;
      ReadsBack(x, [COMMA] + more);
      ItemsMore(Print(x).value + ([COMMA] + more), Meaning(x), more, MeaningOfItems(tail), rest);
      RegroupList(Print(x).value, [COMMA], PrintItems(parent, tail).value, close);
    }
  }

  lemma {:induction false} MemberReadsBack(parent: Value, m: Member, rest: Text)
    requires parent.Obj? && m in parent.members && Delimited(rest)
    requires WellFormed(m.key) && Accepted(m.value) && Proper(m.value)
    ensures PrintMember(parent, m).Some?
    ensures DecodeMember(PrintMember(parent, m).value + rest) == Some((m.key, Meaning(m.value), rest))
    decreases parent, 0, 0
  {
    ReadsBack(m.value, rest);
    var value := Print(m.value).value;
    var key := StringText(m.key).value;
    var t := key + ([COLON] + (value + rest));
    DecodePrintedString(m.key, [COLON] + (value + rest));
    MemberRead(t, m.key, value + rest, Meaning(m.value), rest);
    RegroupList(key, [COLON], value, rest);
  }

  lemma {:induction false} MembersReadBack(parent: Value, members: seq<Member>, rest: Text)
    requires parent.Obj? && members != [] && forall m | m in members :: m in parent.members
    requires AcceptedMembers(members) && forall i | 0 <= i < |members| :: Proper(members[i].value)
    ensures PrintMembers(parent, members).Some?
    ensures DecodeMembers(PrintMembers(parent, members).value + ([CLOSE_BRACE] + rest))
         == Some((MeaningOfMembers(members), rest))
    decreases parent, 0, |members|
  {
    var close := [CLOSE_BRACE] + rest;
    var m := members[0];
    assert m in members;
    if |members| == 1 {
      MemberReadsBack(parent, m, close);
      MembersLast(PrintMember(parent, m).value + close, m.key, Meaning(m.value), rest);
      assert MeaningOfMembers(members[1..]) == map[];
    } else {
      var tail := members[1..];
      MembersReadBack(parent, tail, rest);
      var more := PrintMembers(parent, tail).value + close;
      MemberReadsBack(parent, m, [COMMA] + more);
      MembersMore(PrintMember(parent, m).value + ([COMMA] + more), m.key, Meaning(m.value), more,
                  MeaningOfMembers(tail), rest);
      RegroupList(PrintMember(parent, m).value, [COMMA], PrintMembers(parent, tail).value, close);
    }
  }

  lemma {:induction false} ArrayReadsBack(v: Value, rest: Text)
    requires v.Arr? && Accepted(v) && Proper(v)
    ensures Print(v).Some? && DecodeValue(Print(v).value + rest) == Some((Meaning(v), rest))
    decreases v, 0, |v.items| + 1
  {
    PrintsExactlyAccepted(v);
    var t := Print(v).value + rest;
    if v.items == [] {
      assert t[2..] == rest;
    } else {
      ItemsReadBack(v, v.items, rest);
      ItemsStart(v);
      BracketsRead(PrintItems(v, v.items).value, MeaningOfItems(v.items), rest);
      assert t == [OPEN_BRACKET] + PrintItems(v, v.items).value + [CLOSE_BRACKET] + rest;
    }
  }

  lemma BracketsRead(inner: Text, items: seq<Jv>, rest: Text)
    requires inner != [] && inner[0] != CLOSE_BRACKET
    requires DecodeItems(inner + ([CLOSE_BRACKET] + rest)) == Some((items, rest))
    ensures DecodeValue([OPEN_BRACKET] + inner + [CLOSE_BRACKET] + rest) == Some((JArr(items), rest))
  {
    RegroupArray(inner, rest);
    DecodeBracketed([OPEN_BRACKET] + inner + [CLOSE_BRACKET] + rest, items, rest);
  }

  lemma RegroupArray(inner: Text, rest: Text)
    ensures ([OPEN_BRACKET] + inner + [CLOSE_BRACKET] + rest)[1..] == inner + ([CLOSE_BRACKET] + rest)
    ensures inner != [] ==> ([OPEN_BRACKET] + inner + [CLOSE_BRACKET] + rest)[1] == inner[0]
  {
  }

  lemma DecodeBracketed(t: Text, items: seq<Jv>, rest: Text)
    requires |t| > 1 && t[0] == OPEN_BRACKET && t[1] != CLOSE_BRACKET
    requires DecodeItems(t[1..]) == Some((items, rest))
    ensures DecodeValue(t) == Some((JArr(items), rest))
  {
  }

  lemma ItemsStart(v: Value)
    requires v.Arr? && Accepted(v) && v.items != []
    ensures PrintItems(v, v.items).Some? && PrintItems(v, v.items).value != []
    ensures PrintItems(v, v.items).value[0] != CLOSE_BRACKET
  {
    PrintsExactlyAccepted(v);
    PrintStarts(v.items[0]);
  }

  lemma {:induction false} KeyMeant(members: seq<Member>, k: Text)
    requires AcceptedMembers(members)
    ensures k in MeaningOfMembers(members) <==> exists i :: 0 <= i < |members| && members[i].key == k
  {
    if members != [] {
      KeyMeant(members[1..], k);
      if i :| 0 <= i < |members[1..]| && members[1..][i].key == k {
        assert members[i + 1].key == k;
      }
      if i :| 0 <= i < |members| && members[i].key == k {
        assert i > 0 ==> members[1..][i - 1].key == k;
      }
    }
  }

  lemma {:induction false} ValueMeant(members: seq<Member>, i: nat)
    requires AcceptedMembers(members) && DistinctKeys(members) && i < |members|
    ensures members[i].key in MeaningOfMembers(members)
    ensures MeaningOfMembers(members)[members[i].key] == Meaning(members[i].value)
  {
    if i > 0 {
      assert members[1..][i - 1] == members[i] && members[i].key != members[0].key;
      ValueMeant(members[1..], i - 1);
    }
  }

  /** The map of a dict has exactly its keys, each with the meaning of its value. */
  lemma MeaningByMembers(members: seq<Member>)
    requires AcceptedMembers(members) && DistinctKeys(members)
    ensures forall k :: k in MeaningOfMembers(members) <==> exists i :: 0 <= i < |members| && members[i].key == k
    ensures forall i | 0 <= i < |members| :: MeaningOfMembers(members)[members[i].key] == Meaning(members[i].value)
  {
    forall k ensures k in MeaningOfMembers(members) <==> exists i :: 0 <= i < |members| && members[i].key == k {
      KeyMeant(members, k);
    }
    forall i | 0 <= i < |members|
      ensures members[i].key in MeaningOfMembers(members)
      ensures MeaningOfMembers(members)[members[i].key] == Meaning(members[i].value)
    {
      ValueMeant(members, i);
    }
  }

  lemma MeaningOfPermuted(a: seq<Member>, b: seq<Member>)
    requires AcceptedMembers(a) && AcceptedMembers(b) && DistinctKeys(a) && DistinctKeys(b)
    requires forall m :: m in a <==> m in b
    ensures MeaningOfMembers(a) == MeaningOfMembers(b)
  {
    MeaningByMembers(a);
    MeaningByMembers(b);
    var ma, mb := MeaningOfMembers(a), MeaningOfMembers(b);
    forall k ensures k in ma <==> k in mb {
      if k in ma {
        var i :| 0 <= i < |a| && a[i].key == k;
        assert a[i] in b;
      }
      if k in mb {
        var i :| 0 <= i < |b| && b[i].key == k;
        assert b[i] in a;
      }
    }
    forall k | k in ma ensures ma[k] == mb[k] {
      var i :| 0 <= i < |a| && a[i].key == k;
      assert a[i] in b;
      var j :| 0 <= j < |b| && b[j] == a[i];
    }
  }

  /** Sorting the members of an accepted dict changes neither what they mean nor what holds of them. */
  lemma SortedMembers(v: Value) returns (sorted: seq<Member>)
    requires v.Obj? && Accepted(v) && Proper(v)
    ensures sorted == SortByKey(v.members)
    ensures StrictlySorted(KeysOf(sorted)) && AllWellFormed(KeysOf(sorted)) && DistinctKeys(sorted)
    ensures forall m :: m in sorted <==> m in v.members
    ensures AcceptedMembers(sorted) && forall i | 0 <= i < |sorted| :: Proper(sorted[i].value)
    ensures MeaningOfMembers(sorted) == MeaningOfMembers(v.members) && |sorted| == |v.members|
  {
    sorted := SortByKey(v.members);
    KeysEncodable(v.members);
    SortIsSorted(v.members);
    SortKeepsMembers(v.members);
    SortedKeysAreDistinct(sorted);
    forall i | 0 <= i < |sorted|
      ensures WellFormed(sorted[i].key) && Accepted(sorted[i].value) && Proper(sorted[i].value)
    {
      assert sorted[i] in v.members;
    }
    MeaningOfPermuted(sorted, v.members);
  }

  lemma {:induction false} ObjectReadsBack(v: Value, rest: Text)
    requires v.Obj? && Accepted(v) && Proper(v)
    ensures Print(v).Some? && DecodeValue(Print(v).value + rest) == Some((Meaning(v), rest))
    decreases v, 0, |v.members| + 1
  {
    PrintsExactlyAccepted(v);
    var t := Print(v).value + rest;
    var sorted := SortedMembers(v);
    if v.members == [] {
      assert t[2..] == rest;
    } else {
      MembersReadBack(v, sorted, rest);
      MembersStart(v, sorted);
      DecodeObject(PrintMembers(v, sorted).value, MeaningOfMembers(sorted), rest);
    }
  }

  lemma MembersStart(v: Value, members: seq<Member>)
    requires v.Obj? && members != [] && forall m | m in members :: m in v.members
    requires PrintMembers(v, members).Some?
    ensures PrintMembers(v, members).value != [] && PrintMembers(v, members).value[0] == QUOTE
  {
  }

  lemma DecodeObject(inner: Text, fields: map<Text, Jv>, rest: Text)
    requires inner != [] && inner[0] == QUOTE
    requires DecodeMembers(inner + ([CLOSE_BRACE] + rest)) == Some((fields, rest))
    ensures DecodeValue([OPEN_BRACE] + inner + [CLOSE_BRACE] + rest) == Some((JObj(fields), rest))
  {
    RegroupObject(inner, rest);
    DecodeBraced([OPEN_BRACE] + inner + [CLOSE_BRACE] + rest, fields, rest);
  }

  lemma RegroupObject(inner: Text, rest: Text)
    ensures ([OPEN_BRACE] + inner + [CLOSE_BRACE] + rest)[1..] == inner + ([CLOSE_BRACE] + rest)
  {
  }

  lemma DecodeBraced(t: Text, fields: map<Text, Jv>, rest: Text)
    requires |t| > 1 && t[0] == OPEN_BRACE && t[1] == QUOTE && DecodeMembers(t[1..]) == Some((fields, rest))
    ensures DecodeValue(t) == Some((JObj(fields), rest))
  {
  }

  lemma LiteralsReadBack(rest: Text)
    ensures DecodeValue(NULL_TEXT + rest) == Some((JNull, rest))
    ensures DecodeValue(TRUE_TEXT + rest) == Some((JBool(true), rest))
    ensures DecodeValue(FALSE_TEXT + rest) == Some((JBool(false), rest))
  {
    var n, t, f := NULL_TEXT + rest, TRUE_TEXT + rest, FALSE_TEXT + rest;
    assert n[..4] == NULL_TEXT && n[4..] == rest;
    assert t[..4] == TRUE_TEXT && t[4..] == rest;
    assert f[..5] == FALSE_TEXT && f[5..] == rest;
    NotStarting(t, NULL_TEXT);
    NotStarting(f, NULL_TEXT);
    NotStarting(f, TRUE_TEXT);
  }

  /** Whatever follows, the decoder recovers the value that was printed, and stops where it ended. */
  lemma {:induction false} ReadsBack(v: Value, rest: Text)
    requires Accepted(v) && Proper(v) && Delimited(rest)
    ensures Print(v).Some? && DecodeValue(Print(v).value + rest) == Some((Meaning(v), rest))
    decreases v, 1, 0
  {
    match v
    case Null => LiteralsReadBack(rest);
    case Bool(b) => LiteralsReadBack(rest);
    case Int(i) =>
      IntTextIsNumText(i);
      DecodePrintedNumber(NumOfInt(i), rest);
    case Float(n) => DecodePrintedNumber(n, rest);
    case Str(s) =>
      DecodePrintedString(s, rest);
    case Arr(_) => ArrayReadsBack(v, rest);
    case Obj(_) => ObjectReadsBack(v, rest);
  }
}
