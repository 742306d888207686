/**
 The canonical text of an accepted value and its JSON value determine each other.
 */
module Unambiguous {
  import opened Wrappers
  import opened Utf16
  import opened Numbers
  import opened Canonical
  import opened Decoder

  /** An int or float prints as the text of its number, and means its real value. */
  lemma NumberText(v: Value)
    requires Accepted(v) && (v.Int? || v.Float?)
    ensures Normal(Meaning(v).n) && Print(v) == Some(NumText(Meaning(v).n))
    ensures Val(Meaning(v).n) == if v.Int? then v.i as real else Val(v.n)
  {
    if v.Int? {
      IntTextIsNumText(v.i);
      IntIsItsNumber(v.i);
    }
  }

  /** Two accepted numbers print alike exactly when they are the same real number. */
  lemma NumbersPrintByValue(a: Value, b: Value)
    requires Accepted(a) && Accepted(b) && (a.Int? || a.Float?) && (b.Int? || b.Float?)
    ensures Print(a) == Print(b)
      <==> (if a.Int? then a.i as real else Val(a.n)) == (if b.Int? then b.i as real else Val(b.n))
  {
    NumberText(a);
    NumberText(b);
    NumTextInjective(Meaning(a).n, Meaning(b).n);
  }

  lemma {:induction false} SameMeaningSameText(a: Value, b: Value)
    requires Accepted(a) && Proper(a) && Accepted(b) && Proper(b) && Meaning(a) == Meaning(b)
    ensures Print(a) == Print(b)
    decreases a, 1, 0
  {
    match Meaning(a)
    case JNum(_) =>
      NumberText(a);
      NumberText(b);
    case JArr(_) => SameItemsSameText(a, a.items, b, b.items);
    case JObj(_) => SameObjectsSameText(a, b);
    case _ =>
  }

  lemma {:induction false} SameItemsSameText(pa: Value, a: seq<Value>, pb: Value, b: seq<Value>)
    requires pa.Arr? && (forall x | x in a :: x in pa.items) && pb.Arr? && (forall x | x in b :: x in pb.items)
    requires forall i | 0 <= i < |a| :: Accepted(a[i]) && Proper(a[i])
    requires forall i | 0 <= i < |b| :: Accepted(b[i]) && Proper(b[i])
    requires MeaningOfItems(a) == MeaningOfItems(b)
    ensures PrintItems(pa, a) == PrintItems(pb, b)
    decreases pa, 0, |a|
  {
    if a != [] {
      assert |a| == |MeaningOfItems(a)| == |b|;
      assert a[0] in a;
      assert Meaning(a[0]) == MeaningOfItems(a)[0] == MeaningOfItems(b)[0] == Meaning(b[0]);
      SameMeaningSameText(a[0], b[0]);
      assert MeaningOfItems(a[1..]) == MeaningOfItems(a)[1..] == MeaningOfItems(b)[1..] == MeaningOfItems(b[1..]);
      SameItemsSameText(pa, a[1..], pb, b[1..]);
    }
  }

  /** Objects that are equal as maps list the same keys once sorted. */
  lemma SortedKeysAgree(a: seq<Member>, b: seq<Member>)
    requires AcceptedMembers(a) && AcceptedMembers(b) && DistinctKeys(a) && DistinctKeys(b)
    requires StrictlySorted(KeysOf(a)) && StrictlySorted(KeysOf(b))
    requires AllWellFormed(KeysOf(a)) && AllWellFormed(KeysOf(b))
    requires MeaningOfMembers(a) == MeaningOfMembers(b)
    ensures KeysOf(a) == KeysOf(b)
    ensures |a| == |b| && forall i | 0 <= i < |a| :: Meaning(a[i].value) == Meaning(b[i].value)
  {
    KeysAreDomain(a);
    KeysAreDomain(b);
    SortedUnique(KeysOf(a), KeysOf(b));
    ValuesAgree(a, b);
  }

  lemma ValuesAgree(a: seq<Member>, b: seq<Member>)
    requires AcceptedMembers(a) && AcceptedMembers(b) && DistinctKeys(a) && DistinctKeys(b)
    requires MeaningOfMembers(a) == MeaningOfMembers(b) && KeysOf(a) == KeysOf(b)
    ensures |a| == |b| && forall i | 0 <= i < |a| :: Meaning(a[i].value) == Meaning(b[i].value)
  {
    MeaningByMembers(a);
    MeaningByMembers(b);
    assert |KeysOf(a)| == |a| && |KeysOf(b)| == |b|;
    forall i | 0 <= i < |a| ensures Meaning(a[i].value) == Meaning(b[i].value) {
      assert KeysOf(a)[i] == a[i].key && KeysOf(b)[i] == b[i].key;
    }
  }

  lemma KeysAreDomain(members: seq<Member>)
    requires AcceptedMembers(members) && DistinctKeys(members)
    ensures forall k :: k in KeysOf(members) <==> k in MeaningOfMembers(members)
  {
    MeaningByMembers(members);
    forall k ensures k in KeysOf(members) <==> k in MeaningOfMembers(members) {
      if k in KeysOf(members) {
        var i :| 0 <= i < |members| && KeysOf(members)[i] == k;
        assert members[i].key == k;
      }
      if k in MeaningOfMembers(members) {
        var i :| 0 <= i < |members| && members[i].key == k;
        assert KeysOf(members)[i] == k;
      }
    }
  }

  lemma {:induction false} SameObjectsSameText(a: Value, b: Value)
    requires a.Obj? && b.Obj?
    requires Accepted(a) && Proper(a) && Accepted(b) && Proper(b) && Meaning(a) == Meaning(b)
    ensures Print(a) == Print(b)
    decreases a, 0, |a.members| + 1
  {
    var sa := SortedMembers(a);
    var sb := SortedMembers(b);
    SortedKeysAgree(sa, sb);
    SameMembersSameText(a, sa, b, sb);
    KeysEncodable(a.members);
    KeysEncodable(b.members);
  }

  lemma KeysSplit(a: seq<Member>, b: seq<Member>)
    requires a != [] && |a| == |b| && KeysOf(a) == KeysOf(b)
    ensures a[0].key == b[0].key && KeysOf(a[1..]) == KeysOf(b[1..])
  {
    assert a[0].key == KeysOf(a)[0] == KeysOf(b)[0] == b[0].key;
    assert KeysOf(a[1..]) == KeysOf(a)[1..] == KeysOf(b)[1..] == KeysOf(b[1..]);
  }

  lemma {:induction false} SameMembersSameText(pa: Value, a: seq<Member>, pb: Value, b: seq<Member>)
    requires pa.Obj? && (forall m | m in a :: m in pa.members) && pb.Obj? && (forall m | m in b :: m in pb.members)
    requires AcceptedMembers(a) && AcceptedMembers(b)
    requires (forall i | 0 <= i < |a| :: Proper(a[i].value)) && forall i | 0 <= i < |b| :: Proper(b[i].value)
    requires |a| == |b| && KeysOf(a) == KeysOf(b)
      && forall i | 0 <= i < |a| :: Meaning(a[i].value) == Meaning(b[i].value)
    ensures PrintMembers(pa, a) == PrintMembers(pb, b)
    decreases pa, 0, |a|
  {
    if a != [] {
      assert a[0] in a && b[0] in b;
      KeysSplit(a, b);
      SameMeaningSameText(a[0].value, b[0].value);
      SameMembersSameText(pa, a[1..], pb, b[1..]);
      assert PrintMember(pa, a[0]) == PrintMember(pb, b[0]);
    }
  }

  /**
   Accepted values print alike exactly when they are equal as JSON: the printer is unambiguous and
   never shows the insertion order of a dict or the Python type of a number.
   */
  lemma SameTextIffSameJson(a: Value, b: Value)
    requires Accepted(a) && Proper(a) && Accepted(b) && Proper(b)
    ensures Print(a) == Print(b) <==> Meaning(a) == Meaning(b)
  {
    ReadsBack(a, []);
    ReadsBack(b, []);
    assert Print(a).value + [] == Print(a).value && Print(b).value + [] == Print(b).value;
    if Meaning(a) == Meaning(b) {
      SameMeaningSameText(a, b);
    }
  }

  /** Reordering the members of a dict leaves its text unchanged. */
  lemma InsertionOrderIsInvisible(a: seq<Member>, b: seq<Member>)
    requires Proper(Obj(a)) && Proper(Obj(b)) && Accepted(Obj(a)) && multiset(a) == multiset(b)
    ensures Print(Obj(a)) == Print(Obj(b))
  {
    forall m ensures m in a <==> m in b {
      assert m in a <==> m in multiset(a);
      assert m in b <==> m in multiset(b);
    }
    forall i | 0 <= i < |b| ensures WellFormed(b[i].key) && Accepted(b[i].value) {
      assert b[i] in a;
    }
    MeaningOfPermuted(a, b);
    SameMeaningSameText(Obj(a), Obj(b));
  }
}
