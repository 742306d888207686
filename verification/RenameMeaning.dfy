/**
 Which renames are accepted, said without the loops: every pair of a removed and an added parameter that is
 alike enough, taken in order of confidence and, between equals, of position, unless an earlier one took
 one of its names.
 */
module RenameMeaning {
  import opened Lists
  import opened Wrappers
  import opened Json
  import opened Schema
  import opened Renames

  // ----- alike -----

  /** How alike two texts are, in lower case. */
  function Alikeness(lib: Library, a: string, b: string): real {
    lib.ratio(lib.lower(a), lib.lower(b))
  }

  /** Neither schema states a type, or one does not, or they state the same. */
  predicate TypeKept(a: Json, b: Json)
    requires a.Obj? && b.Obj?
  {
    TypeSet(a) == {} || TypeSet(b) == {} || TypeSet(a) == TypeSet(b)
  }

  predicate Described(lib: Library, a: Json, b: Json)
    requires a.Obj? && b.Obj?
  {
    DescriptionText(lib, a) != "" || DescriptionText(lib, b) != ""
  }

  /** Six parts name and four parts description, or name alone if nothing is described. */
  function Weighed(lib: Library, oldName: string, newName: string, a: Json, b: Json): real
    requires a.Obj? && b.Obj?
  {
    if Described(lib, a, b) then
      (6.0 * Alikeness(lib, oldName, newName)
       + 4.0 * Alikeness(lib, DescriptionText(lib, a), DescriptionText(lib, b))) / 10.0
    else Alikeness(lib, oldName, newName)
  }

  /** The type is kept, the name or the description is alike enough, and so is all of it. */
  predicate Alike(lib: Library, oldName: string, newName: string, a: Json, b: Json)
    requires a.Obj? && b.Obj?
  {
    && TypeKept(a, b) && Weighed(lib, oldName, newName, a, b) >= 0.5
    && (|| Alikeness(lib, oldName, newName) >= 0.3
        || (Described(lib, a, b) && Alikeness(lib, DescriptionText(lib, a), DescriptionText(lib, b)) >= 0.5))
  }

  /** The pair may be a rename, with this confidence. */
  predicate MayRename(lib: Library, removed: seq<string>, added: seq<string>, before: seq<Field>, after: seq<Field>,
                      c: Candidate)
  {
    var a, b := Prop(before, c.oldName), Prop(after, c.newName);
    && c.oldName in removed && c.newName in added
    && Alike(lib, c.oldName, c.newName, a, b) && c.conf == Weighed(lib, c.oldName, c.newName, a, b)
  }

  lemma QualifiesIfAlike(lib: Library, oldName: string, newName: string, before: seq<Field>, after: seq<Field>,
                         c: Candidate)
    requires c.oldName == oldName && c.newName == newName
    ensures var a, b := Prop(before, oldName), Prop(after, newName);
      Qualifying(lib, oldName, newName, before, after) == Some(c)
      <==> Alike(lib, oldName, newName, a, b) && c.conf == Weighed(lib, oldName, newName, a, b)
  {
  }

  lemma CandidateIffMayRename(lib: Library, removed: seq<string>, added: seq<string>, before: seq<Field>,
                              after: seq<Field>, c: Candidate)
    ensures c in Candidates(lib, removed, added, before, after) <==> MayRename(lib, removed, added, before, after, c)
  {
    CandidatesMembers(lib, removed, added, before, after, c);
    QualifiesIfAlike(lib, c.oldName, c.newName, before, after, c);
  }

  // ----- in order -----

  function Position(names: seq<string>, name: string): (r: nat)
    ensures name in names ==> r < |names| && names[r] == name
  {
    if names == [] || names[0] == name then 0 else 1 + Position(names[1..], name)
  }

  /** The nested loop comes to `c` first. */
  predicate Earlier(removed: seq<string>, added: seq<string>, c: Candidate, d: Candidate) {
    || Position(removed, c.oldName) < Position(removed, d.oldName)
    || (c.oldName == d.oldName && Position(added, c.newName) < Position(added, d.newName))
  }

  /** More confident, or as confident and earlier. */
  predicate Precedes(removed: seq<string>, added: seq<string>, c: Candidate, d: Candidate) {
    c.conf > d.conf || (c.conf == d.conf && Earlier(removed, added, c, d))
  }

  predicate InPrecedence(removed: seq<string>, added: seq<string>, cs: seq<Candidate>) {
    forall i, j | 0 <= i < j < |cs| :: Precedes(removed, added, cs[i], cs[j])
  }

  /** A pair before it took one of its names. */
  predicate Blocked(removed: seq<string>, added: seq<string>, cs: seq<Candidate>, d: Candidate) {
    exists i :: 0 <= i < |cs| && SharesName(cs[i], d) && Precedes(removed, added, cs[i], d)
  }

  /** The renames that must be found: in order, one to one, and complete but for what earlier ones block. */
  ghost predicate TheRenames(lib: Library, removed: seq<string>, added: seq<string>, before: seq<Field>,
                             after: seq<Field>, cs: seq<Candidate>)
  {
    && InPrecedence(removed, added, cs) && OneToOne(cs)
    && (forall c | c in cs :: MayRename(lib, removed, added, before, after, c))
    && forall d | MayRename(lib, removed, added, before, after, d) :: d in cs || Blocked(removed, added, cs, d)
  }

  // ----- the candidates, sorted, are in order of precedence -----

  lemma {:induction false} PositionOf(names: seq<string>, i: nat)
    requires Distinct(names) && i < |names|
    ensures Position(names, names[i]) == i
  {
    if i > 0 {
      assert names[0] != names[i];
      PositionOf(names[1..], i - 1);
    }
  }

  predicate Listed(removed: seq<string>, added: seq<string>, cs: seq<Candidate>) {
    forall i, j | 0 <= i < j < |cs| :: Earlier(removed, added, cs[i], cs[j])
  }

  lemma EarlierName(names: seq<string>, n: nat, name: string)
    requires Distinct(names) && n < |names| && name in names[..n]
    ensures Position(names, name) < Position(names, names[n])
  {
    var k :| 0 <= k < n && names[k] == name;
    PositionOf(names, k);
    PositionOf(names, n);
  }

  lemma {:induction false} InnerListed(lib: Library, oldName: string, removed: seq<string>, added: seq<string>, n: nat,
                                       before: seq<Field>, after: seq<Field>)
    requires Distinct(added) && n <= |added|
    ensures Listed(removed, added, CandidatesFor(lib, oldName, added[..n], before, after))
  {
    if n > 0 {
      assert added[..n][..n - 1] == added[..n - 1];
      InnerListed(lib, oldName, removed, added, n - 1, before, after);
      var front := CandidatesFor(lib, oldName, added[..n - 1], before, after);
      forall i | 0 <= i < |front|
        ensures front[i].oldName == oldName && Position(added, front[i].newName) < Position(added, added[n - 1])
      {
        CandidatesForMembers(lib, oldName, added[..n - 1], before, after, front[i]);
        EarlierName(added, n - 1, front[i].newName);
      }
    }
  }

  lemma JoinListed(removed: seq<string>, added: seq<string>, cs: seq<Candidate>, ds: seq<Candidate>)
    requires Listed(removed, added, cs) && Listed(removed, added, ds)
    requires forall c, d | c in cs && d in ds :: Earlier(removed, added, c, d)
    ensures Listed(removed, added, cs + ds)
  {
  }

  /** The nested loop lists the candidates by position. */
  lemma {:induction false} OuterListed(lib: Library, removed: seq<string>, m: nat, added: seq<string>,
                                       before: seq<Field>, after: seq<Field>)
    requires Distinct(removed) && Distinct(added) && m <= |removed|
    ensures Listed(removed, added, Candidates(lib, removed[..m], added, before, after))
  {
    if m > 0 {
      assert removed[..m][..m - 1] == removed[..m - 1];
      OuterListed(lib, removed, m - 1, added, before, after);
      assert added[..|added|] == added;
      InnerListed(lib, removed[m - 1], removed, added, |added|, before, after);
      var front := Candidates(lib, removed[..m - 1], added, before, after);
      var row := CandidatesFor(lib, removed[m - 1], added, before, after);
      forall c, d | c in front && d in row ensures Earlier(removed, added, c, d) {
        CandidatesMembers(lib, removed[..m - 1], added, before, after, c);
        CandidatesForMembers(lib, removed[m - 1], added, before, after, d);
        EarlierName(removed, m - 1, c.oldName);
      }
      JoinListed(removed, added, front, row);
    }
  }

  lemma {:induction false} InsertInPrecedence(removed: seq<string>, added: seq<string>, c: Candidate,
                                              cs: seq<Candidate>)
    requires InPrecedence(removed, added, cs) && forall d | d in cs :: Earlier(removed, added, c, d)
    ensures InPrecedence(removed, added, Insert(c, cs))
  {
    if cs != [] && cs[0].conf > c.conf {
      var r := Insert(c, cs[1..]);
      InsertInPrecedence(removed, added, c, cs[1..]);
      InsertPermutes(c, cs[1..]);
      forall j | 0 <= j < |r| ensures Precedes(removed, added, cs[0], r[j]) {
        assert r[j] in multiset(r);
        assert r[j] == c || r[j] in cs[1..];
      }
    } else {
      forall j | 0 <= j < |cs| ensures Precedes(removed, added, c, cs[j]) {
        assert j > 0 ==> Precedes(removed, added, cs[0], cs[j]);
      }
    }
  }

  /** The stable sort puts candidates listed by position in order of precedence. */
  lemma {:induction false} SortInPrecedence(removed: seq<string>, added: seq<string>, cs: seq<Candidate>)
    requires Listed(removed, added, cs)
    ensures InPrecedence(removed, added, SortByConfidence(cs))
  {
    if cs != [] {
      SortInPrecedence(removed, added, cs[1..]);
      SortIsStableDescending(cs[1..], 0.0);
      forall d | d in SortByConfidence(cs[1..]) ensures Earlier(removed, added, cs[0], d) {
        assert d in multiset(SortByConfidence(cs[1..]));
        assert d in cs[1..];
      }
      InsertInPrecedence(removed, added, cs[0], SortByConfidence(cs[1..]));
    }
  }

  lemma SortedCandidates(lib: Library, removed: seq<string>, added: seq<string>, before: seq<Field>, after: seq<Field>)
    requires Distinct(removed) && Distinct(added)
    ensures var sorted := SortByConfidence(Candidates(lib, removed, added, before, after));
      && InPrecedence(removed, added, sorted)
      && forall c :: c in sorted <==> MayRename(lib, removed, added, before, after, c)
  {
    var cs := Candidates(lib, removed, added, before, after);
    assert removed[..|removed|] == removed;
    OuterListed(lib, removed, |removed|, added, before, after);
    SortInPrecedence(removed, added, cs);
    SortIsStableDescending(cs, 0.0);
    forall c ensures c in SortByConfidence(cs) <==> MayRename(lib, removed, added, before, after, c) {
      assert c in SortByConfidence(cs) <==> c in multiset(SortByConfidence(cs));
      assert c in cs <==> c in multiset(cs);
      CandidateIffMayRename(lib, removed, added, before, after, c);
    }
  }

  // ----- the greedy pass finds them -----

  lemma {:induction false} GreedyInPrecedence(removed: seq<string>, added: seq<string>, cs: seq<Candidate>,
                                              usedOld: set<string>, usedNew: set<string>)
    requires InPrecedence(removed, added, cs)
    ensures InPrecedence(removed, added, Greedy(cs, usedOld, usedNew))
  {
    if cs != [] {
      var c := cs[0];
      if Free(c, usedOld, usedNew) {
        GreedyInPrecedence(removed, added, cs[1..], usedOld + {c.oldName}, usedNew + {c.newName});
        GreedyFacts(cs[1..], usedOld + {c.oldName}, usedNew + {c.newName});
        var g := Greedy(cs[1..], usedOld + {c.oldName}, usedNew + {c.newName});
        forall j | 0 <= j < |g| ensures Precedes(removed, added, c, g[j]) {
          assert g[j] in g && g[j] in cs[1..];
        }
      } else {
        GreedyInPrecedence(removed, added, cs[1..], usedOld, usedNew);
      }
    }
  }

  /** A candidate that is passed over meets an accepted pair before it. */
  lemma {:induction false} PassedOverIsBlocked(removed: seq<string>, added: seq<string>, cs: seq<Candidate>,
                                               usedOld: set<string>, usedNew: set<string>, d: Candidate)
    requires InPrecedence(removed, added, cs) && d in cs && Free(d, usedOld, usedNew)
    ensures var g := Greedy(cs, usedOld, usedNew);
      d in g || exists p :: p in g && SharesName(p, d) && Precedes(removed, added, p, d)
  {
    var h := cs[0];
    if !Free(h, usedOld, usedNew) {
      PassedOverIsBlocked(removed, added, cs[1..], usedOld, usedNew, d);
    } else if h != d && SharesName(h, d) {
      assert h in Greedy(cs, usedOld, usedNew);
    } else if h != d {
      PassedOverIsBlocked(removed, added, cs[1..], usedOld + {h.oldName}, usedNew + {h.newName}, d);
    }
  }

  lemma MatchingIsTheRenames(lib: Library, removed: seq<string>, added: seq<string>, before: seq<Field>,
                             after: seq<Field>)
    requires Distinct(removed) && Distinct(added)
    ensures TheRenames(lib, removed, added, before, after, MatchingOf(lib, removed, added, before, after).pairs)
  {
    var sorted := SortByConfidence(Candidates(lib, removed, added, before, after));
    var g := Greedy(sorted, {}, {});
    SortedCandidates(lib, removed, added, before, after);
    GreedyInPrecedence(removed, added, sorted, {}, {});
    GreedyFacts(sorted, {}, {});
    forall d | MayRename(lib, removed, added, before, after, d) ensures d in g || Blocked(removed, added, g, d) {
      PassedOverIsBlocked(removed, added, sorted, {}, {}, d);
      if d !in g {
        var p :| p in g && SharesName(p, d) && Precedes(removed, added, p, d);
        var i :| 0 <= i < |g| && g[i] == p;
      }
    }
  }

  // ----- and there are no others -----

  lemma InAsFarAs(lib: Library, removed: seq<string>, added: seq<string>, before: seq<Field>, after: seq<Field>,
                  sorted: seq<Candidate>, k: nat, cs: seq<Candidate>, ds: seq<Candidate>)
    requires InPrecedence(removed, added, sorted) && k < |sorted|
    requires forall c :: c in sorted <==> MayRename(lib, removed, added, before, after, c)
    requires TheRenames(lib, removed, added, before, after, cs) && TheRenames(lib, removed, added, before, after, ds)
    requires forall i | 0 <= i < k :: sorted[i] in ds ==> sorted[i] in cs
    ensures sorted[k] in cs ==> sorted[k] in ds
  {
    var d := sorted[k];
    if d in cs && d !in ds {
      assert d in sorted;
      var j :| 0 <= j < |ds| && SharesName(ds[j], d) && Precedes(removed, added, ds[j], d);
      assert ds[j] in ds && ds[j] in sorted;
      var i :| 0 <= i < |sorted| && sorted[i] == ds[j];
      assert i < k;
      TwiceTaken(cs, ds[j], d);
    }
  }

  lemma TwiceTaken(cs: seq<Candidate>, c: Candidate, d: Candidate)
    requires OneToOne(cs) && c in cs && d in cs && SharesName(c, d)
    ensures c == d
  {
    var i :| 0 <= i < |cs| && cs[i] == c;
    var j :| 0 <= j < |cs| && cs[j] == d;
  }

  lemma {:induction false} SameAsFarAs(lib: Library, removed: seq<string>, added: seq<string>, before: seq<Field>,
                                       after: seq<Field>, sorted: seq<Candidate>, k: nat, cs: seq<Candidate>,
                                       ds: seq<Candidate>)
    requires InPrecedence(removed, added, sorted) && k <= |sorted|
    requires forall c :: c in sorted <==> MayRename(lib, removed, added, before, after, c)
    requires TheRenames(lib, removed, added, before, after, cs) && TheRenames(lib, removed, added, before, after, ds)
    ensures forall i | 0 <= i < k :: sorted[i] in cs <==> sorted[i] in ds
  {
    if k > 0 {
      SameAsFarAs(lib, removed, added, before, after, sorted, k - 1, cs, ds);
      InAsFarAs(lib, removed, added, before, after, sorted, k - 1, cs, ds);
      InAsFarAs(lib, removed, added, before, after, sorted, k - 1, ds, cs);
    }
  }

  lemma TailMembers(removed: seq<string>, added: seq<string>, cs: seq<Candidate>, c: Candidate)
    requires InPrecedence(removed, added, cs) && cs != []
    ensures c in cs[1..] <==> c in cs && c != cs[0]
  {
    assert cs == [cs[0]] + cs[1..];
    if c in cs[1..] {
      var j :| 0 <= j < |cs[1..]| && cs[1..][j] == c;
      assert Precedes(removed, added, cs[0], cs[j + 1]);
    }
  }

  lemma SameFirst(removed: seq<string>, added: seq<string>, cs: seq<Candidate>, ds: seq<Candidate>)
    requires InPrecedence(removed, added, cs) && InPrecedence(removed, added, ds) && cs != [] && ds != []
    requires cs[0] in ds && ds[0] in cs
    ensures cs[0] == ds[0]
  {
    var i :| 0 <= i < |ds| && ds[i] == cs[0];
    var j :| 0 <= j < |cs| && cs[j] == ds[0];
    assert i == 0 || Precedes(removed, added, ds[0], ds[i]);
    assert j == 0 || Precedes(removed, added, cs[0], cs[j]);
  }

  lemma {:induction false} SameMembersSameOrder(removed: seq<string>, added: seq<string>, cs: seq<Candidate>,
                                                ds: seq<Candidate>)
    requires InPrecedence(removed, added, cs) && InPrecedence(removed, added, ds)
    requires forall c :: c in cs <==> c in ds
    ensures cs == ds
  {
    assert cs == [] || cs[0] in ds;
    assert ds == [] || ds[0] in cs;
    if cs != [] && ds != [] {
      SameFirst(removed, added, cs, ds);
      forall c ensures c in cs[1..] <==> c in ds[1..] {
        TailMembers(removed, added, cs, c);
        TailMembers(removed, added, ds, c);
      }
      SameMembersSameOrder(removed, added, cs[1..], ds[1..]);
      assert cs == [cs[0]] + cs[1..] && ds == [ds[0]] + ds[1..];
    }
  }

  /** The accepted renames, in their order, are exactly the ones that must be found. */
  lemma RenamesAreDetermined(lib: Library, removed: seq<string>, added: seq<string>, before: seq<Field>,
                             after: seq<Field>, cs: seq<Candidate>)
    requires Distinct(removed) && Distinct(added)
    ensures MatchingOf(lib, removed, added, before, after).pairs == cs
       <==> TheRenames(lib, removed, added, before, after, cs)
  {
    MatchingIsTheRenames(lib, removed, added, before, after);
    if TheRenames(lib, removed, added, before, after, cs) {
      OnlyTheRenames(lib, removed, added, before, after, MatchingOf(lib, removed, added, before, after).pairs, cs);
    }
  }

  lemma OnlyTheRenames(lib: Library, removed: seq<string>, added: seq<string>, before: seq<Field>, after: seq<Field>,
                       cs: seq<Candidate>, ds: seq<Candidate>)
    requires Distinct(removed) && Distinct(added)
    requires TheRenames(lib, removed, added, before, after, cs) && TheRenames(lib, removed, added, before, after, ds)
    ensures cs == ds
  {
    var sorted := SortByConfidence(Candidates(lib, removed, added, before, after));
    SortedCandidates(lib, removed, added, before, after);
    SameAsFarAs(lib, removed, added, before, after, sorted, |sorted|, cs, ds);
    forall c ensures c in cs <==> c in ds {
      if c in cs || c in ds {
        assert c in sorted;
      }
    }
    SameMembersSameOrder(removed, added, cs, ds);
  }
}
