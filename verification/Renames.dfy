/** The rename heuristic: candidate pairs, a stable descending sort, and a greedy matching. */
module Renames {
  import opened Wrappers
  import opened Json
  import opened Schema

  const CONFIDENCE_THRESHOLD := 0.5
  const NAME_SIM_FLOOR := 0.3
  const DESC_SIM_FLOOR := 0.5

  /** One row of the candidate list; also one accepted rename. */
  datatype Candidate = Candidate(conf: real, oldName: string, newName: string)

  datatype Matching = Matching(pairs: seq<Candidate>, leftoverRemoved: seq<string>, leftoverAdded: seq<string>)

  /** `_rename_confidence`: None when the types differ or both similarities are below their floor. */
  function Confidence(lib: Library, oldName: string, newName: string, oldSchema: Json, newSchema: Json): Option<real>
    requires oldSchema.Obj? && newSchema.Obj?
  {
    var oldTypes, newTypes := TypeSet(oldSchema), TypeSet(newSchema);
    if oldTypes != {} && newTypes != {} && oldTypes != newTypes then None
    else
      var nameSim := lib.ratio(lib.lower(oldName), lib.lower(newName));
      var oldDesc, newDesc := DescriptionText(lib, oldSchema), DescriptionText(lib, newSchema);
      if oldDesc != "" || newDesc != "" then
        var descSim := lib.ratio(lib.lower(oldDesc), lib.lower(newDesc));
        if nameSim < NAME_SIM_FLOOR && descSim < DESC_SIM_FLOOR then None
        else Some(0.6 * nameSim + 0.4 * descSim)
      else if nameSim < NAME_SIM_FLOOR then None
      else Some(nameSim)
  }

  /** The schema stored under `name`, for the dict-valued properties the differ keeps. */
  function Prop(props: seq<Field>, name: string): Json
  {
    var r := Lookup(props, name);
    if r.Some? && r.value.Obj? then r.value else EmptyObj
  }

  function Qualifying(lib: Library, oldName: string, newName: string, before: seq<Field>,
                      after: seq<Field>): Option<Candidate>
  {
    var c := Confidence(lib, oldName, newName, Prop(before, oldName), Prop(after, newName));
    if c.Some? && c.value >= CONFIDENCE_THRESHOLD then Some(Candidate(c.value, oldName, newName)) else None
  }

  function CandidatesFor(lib: Library, oldName: string, added: seq<string>, before: seq<Field>,
                         after: seq<Field>): seq<Candidate>
  {
    if added == [] then []
    else
      var c := Qualifying(lib, oldName, added[|added| - 1], before, after);
      CandidatesFor(lib, oldName, added[..|added| - 1], before, after) + if c.Some? then [c.value] else []
  }

  function Candidates(lib: Library, removed: seq<string>, added: seq<string>, before: seq<Field>,
                      after: seq<Field>): seq<Candidate>
  {
    if removed == [] then []
    else
      Candidates(lib, removed[..|removed| - 1], added, before, after)
      + CandidatesFor(lib, removed[|removed| - 1], added, before, after)
  }

  lemma {:induction false} CandidatesForMembers(lib: Library, oldName: string, added: seq<string>, before: seq<Field>,
                                                after: seq<Field>, c: Candidate)
    ensures c in CandidatesFor(lib, oldName, added, before, after)
       <==> c.oldName == oldName && c.newName in added && Qualifying(lib, oldName, c.newName, before, after) == Some(c)
  {
    if added != [] {
      var front, last := added[..|added| - 1], added[|added| - 1];
      assert added == front + [last];
      CandidatesForMembers(lib, oldName, front, before, after, c);
    }
  }

  /** The nested loop lists exactly the qualifying pairs. */
  lemma {:induction false} CandidatesMembers(lib: Library, removed: seq<string>, added: seq<string>, before: seq<Field>,
                                             after: seq<Field>, c: Candidate)
    ensures c in Candidates(lib, removed, added, before, after)
       <==> && c.oldName in removed && c.newName in added
            && Qualifying(lib, c.oldName, c.newName, before, after) == Some(c)
  {
    if removed != [] {
      var front, last := removed[..|removed| - 1], removed[|removed| - 1];
      assert removed == front + [last];
      CandidatesMembers(lib, front, added, before, after, c);
      CandidatesForMembers(lib, last, added, before, after, c);
    }
  }

  // ----- list.sort(key=-confidence): the stable descending sort -----

  function Insert(c: Candidate, cs: seq<Candidate>): seq<Candidate> {
    if cs == [] then [c]
    else if cs[0].conf > c.conf then [cs[0]] + Insert(c, cs[1..])
    else [c] + cs
  }

  function SortByConfidence(cs: seq<Candidate>): seq<Candidate> {
    if cs == [] then [] else Insert(cs[0], SortByConfidence(cs[1..]))
  }

  predicate Descending(cs: seq<Candidate>) {
    forall i, j | 0 <= i < j < |cs| :: cs[i].conf >= cs[j].conf
  }

  function WithConfidence(x: real, cs: seq<Candidate>): seq<Candidate> {
    if cs == [] then []
    else (if cs[0].conf == x then [cs[0]] else []) + WithConfidence(x, cs[1..])
  }

  lemma {:induction false} InsertPermutes(c: Candidate, cs: seq<Candidate>)
    ensures multiset(Insert(c, cs)) == multiset{c} + multiset(cs)
  {
    if cs != [] && cs[0].conf > c.conf {
      InsertPermutes(c, cs[1..]);
      assert cs == [cs[0]] + cs[1..];
    }
  }

  lemma {:induction false} InsertKeepsDescending(c: Candidate, cs: seq<Candidate>)
    requires Descending(cs)
    ensures Descending(Insert(c, cs))
  {
    if cs != [] && cs[0].conf > c.conf {
      InsertKeepsDescending(c, cs[1..]);
      InsertPermutes(c, cs[1..]);
      var r := Insert(c, cs[1..]);
      forall j | 0 <= j < |r| ensures cs[0].conf >= r[j].conf {
        assert r[j] in multiset(r);
        assert r[j] == c || r[j] in cs[1..];
      }
    }
  }

  lemma {:induction false} InsertIsStable(c: Candidate, cs: seq<Candidate>, x: real)
    requires Descending(cs)
    ensures WithConfidence(x, Insert(c, cs)) == (if c.conf == x then [c] else []) + WithConfidence(x, cs)
  {
    if cs != [] && cs[0].conf > c.conf {
      InsertIsStable(c, cs[1..], x);
      if c.conf == x {
        NoneAbove(x, cs, c.conf);
      }
      assert ([cs[0]] + Insert(c, cs[1..]))[1..] == Insert(c, cs[1..]);
    } else {
      assert ([c] + cs)[1..] == cs;
    }
  }

  /** Inserting behind more confident candidates does not reorder the ones with confidence `x`. */
  lemma NoneAbove(x: real, cs: seq<Candidate>, bound: real)
    requires cs != [] && cs[0].conf > bound && x <= bound
    ensures WithConfidence(x, cs) == WithConfidence(x, cs[1..])
  {
  }

  /** The sort is descending, a permutation, and keeps the order of equally confident candidates. */
  lemma {:induction false} SortIsStableDescending(cs: seq<Candidate>, x: real)
    ensures Descending(SortByConfidence(cs))
    ensures multiset(SortByConfidence(cs)) == multiset(cs)
    ensures WithConfidence(x, SortByConfidence(cs)) == WithConfidence(x, cs)
  {
    if cs != [] {
      SortIsStableDescending(cs[1..], x);
      InsertPermutes(cs[0], SortByConfidence(cs[1..]));
      InsertKeepsDescending(cs[0], SortByConfidence(cs[1..]));
      InsertIsStable(cs[0], SortByConfidence(cs[1..]), x);
      assert cs == [cs[0]] + cs[1..];
    }
  }

  // ----- the greedy pass -----

  predicate Free(c: Candidate, usedOld: set<string>, usedNew: set<string>) {
    c.oldName !in usedOld && c.newName !in usedNew
  }

  /** Accept each candidate in turn unless one of its names is already used. */
  function Greedy(cs: seq<Candidate>, usedOld: set<string>, usedNew: set<string>): seq<Candidate> {
    if cs == [] then []
    else if Free(cs[0], usedOld, usedNew) then
      [cs[0]] + Greedy(cs[1..], usedOld + {cs[0].oldName}, usedNew + {cs[0].newName})
    else Greedy(cs[1..], usedOld, usedNew)
  }

  function Olds(cs: seq<Candidate>): set<string> {
    set i | 0 <= i < |cs| :: cs[i].oldName
  }

  function News(cs: seq<Candidate>): set<string> {
    set i | 0 <= i < |cs| :: cs[i].newName
  }

  function Unused(names: seq<string>, used: set<string>): seq<string> {
    if names == [] then []
    else Unused(names[..|names| - 1], used) + if names[|names| - 1] in used then [] else [names[|names| - 1]]
  }

  function MatchingOf(lib: Library, removed: seq<string>, added: seq<string>, before: seq<Field>,
                      after: seq<Field>): Matching
  {
    var pairs := Greedy(SortByConfidence(Candidates(lib, removed, added, before, after)), {}, {});
    Matching(pairs, Unused(removed, Olds(pairs)), Unused(added, News(pairs)))
  }

  predicate OneToOne(cs: seq<Candidate>) {
    forall i, j | 0 <= i < j < |cs| :: cs[i].oldName != cs[j].oldName && cs[i].newName != cs[j].newName
  }

  lemma {:induction false} GreedyFacts(cs: seq<Candidate>, usedOld: set<string>, usedNew: set<string>)
    ensures var g := Greedy(cs, usedOld, usedNew);
            && OneToOne(g)
            && (forall p | p in g :: p in cs && Free(p, usedOld, usedNew))
  {
    if cs != [] {
      var c := cs[0];
      if Free(c, usedOld, usedNew) {
        GreedyFacts(cs[1..], usedOld + {c.oldName}, usedNew + {c.newName});
        var g := Greedy(cs[1..], usedOld + {c.oldName}, usedNew + {c.newName});
        forall j | 0 <= j < |g| ensures g[j].oldName != c.oldName && g[j].newName != c.newName {
          assert g[j] in g;
        }
      } else {
        GreedyFacts(cs[1..], usedOld, usedNew);
      }
    }
  }

  predicate SharesName(p: Candidate, q: Candidate) {
    p.oldName == q.oldName || p.newName == q.newName
  }

  /** A candidate that is passed over meets an accepted pair at least as confident. */
  lemma {:induction false} GreedyDominates(cs: seq<Candidate>, usedOld: set<string>, usedNew: set<string>, c: Candidate)
    requires Descending(cs) && c in cs && Free(c, usedOld, usedNew)
    ensures exists p :: p in Greedy(cs, usedOld, usedNew) && SharesName(p, c) && p.conf >= c.conf
  {
    var h := cs[0];
    if !Free(h, usedOld, usedNew) {
      GreedyDominates(cs[1..], usedOld, usedNew, c);
    } else if SharesName(h, c) {
      assert h in Greedy(cs, usedOld, usedNew);
    } else {
      GreedyDominates(cs[1..], usedOld + {h.oldName}, usedNew + {h.newName}, c);
    }
  }

  function Total(cs: seq<Candidate>): real {
    if cs == [] then 0.0 else cs[0].conf + Total(cs[1..])
  }

  function WithoutOld(cs: seq<Candidate>, name: string): seq<Candidate> {
    if cs == [] then []
    else (if cs[0].oldName == name then [] else [cs[0]]) + WithoutOld(cs[1..], name)
  }

  function WithoutNew(cs: seq<Candidate>, name: string): seq<Candidate> {
    if cs == [] then []
    else (if cs[0].newName == name then [] else [cs[0]]) + WithoutNew(cs[1..], name)
  }

  lemma {:induction false} WithoutOldMembers(cs: seq<Candidate>, name: string, p: Candidate)
    ensures p in WithoutOld(cs, name) <==> p in cs && p.oldName != name
  {
    if cs != [] {
      assert cs == [cs[0]] + cs[1..];
      WithoutOldMembers(cs[1..], name, p);
    }
  }

  lemma {:induction false} WithoutOldIsOneToOne(cs: seq<Candidate>, name: string)
    requires OneToOne(cs)
    ensures OneToOne(WithoutOld(cs, name))
  {
    if cs != [] {
      WithoutOldIsOneToOne(cs[1..], name);
      var r := WithoutOld(cs[1..], name);
      forall j | 0 <= j < |r| ensures r[j].oldName != cs[0].oldName && r[j].newName != cs[0].newName {
        WithoutOldMembers(cs[1..], name, r[j]);
        assert r[j] in cs[1..];
      }
    }
  }

  /** Dropping one name from a matching drops at most one pair, so at most `bound`. */
  lemma {:induction false} DropOld(cs: seq<Candidate>, name: string, bound: real)
    requires OneToOne(cs) && bound >= 0.0 && forall i | 0 <= i < |cs| :: cs[i].conf <= bound
    ensures Total(cs) <= bound + Total(WithoutOld(cs, name))
    ensures (forall i | 0 <= i < |cs| :: cs[i].oldName != name) ==> WithoutOld(cs, name) == cs
  {
    if cs != [] {
      var rest := cs[1..];
      DropOld(rest, name, bound);
      if cs[0].oldName == name {
        assert forall i | 0 <= i < |rest| :: rest[i].oldName != name by {
          forall i | 0 <= i < |rest| ensures rest[i].oldName != name {
            assert cs[0].oldName != cs[i + 1].oldName;
          }
        }
        assert WithoutOld(cs, name) == rest;
      } else {
        assert ([cs[0]] + WithoutOld(rest, name))[1..] == WithoutOld(rest, name);
        if forall i | 0 <= i < |cs| :: cs[i].oldName != name {
          assert forall i | 0 <= i < |rest| :: rest[i].oldName == cs[i + 1].oldName;
          assert cs == [cs[0]] + rest;
        }
      }
    }
  }

  lemma {:induction false} WithoutNewMembers(cs: seq<Candidate>, name: string, p: Candidate)
    ensures p in WithoutNew(cs, name) <==> p in cs && p.newName != name
  {
    if cs != [] {
      assert cs == [cs[0]] + cs[1..];
      WithoutNewMembers(cs[1..], name, p);
    }
  }

  lemma {:induction false} WithoutNewIsOneToOne(cs: seq<Candidate>, name: string)
    requires OneToOne(cs)
    ensures OneToOne(WithoutNew(cs, name))
  {
    if cs != [] {
      WithoutNewIsOneToOne(cs[1..], name);
      var r := WithoutNew(cs[1..], name);
      forall j | 0 <= j < |r| ensures r[j].oldName != cs[0].oldName && r[j].newName != cs[0].newName {
        WithoutNewMembers(cs[1..], name, r[j]);
        assert r[j] in cs[1..];
      }
    }
  }

  /** Dropping one name from a matching drops at most one pair, so at most `bound`. */
  lemma {:induction false} DropNew(cs: seq<Candidate>, name: string, bound: real)
    requires OneToOne(cs) && bound >= 0.0 && forall i | 0 <= i < |cs| :: cs[i].conf <= bound
    ensures Total(cs) <= bound + Total(WithoutNew(cs, name))
    ensures (forall i | 0 <= i < |cs| :: cs[i].newName != name) ==> WithoutNew(cs, name) == cs
  {
    if cs != [] {
      var rest := cs[1..];
      DropNew(rest, name, bound);
      if cs[0].newName == name {
        assert forall i | 0 <= i < |rest| :: rest[i].newName != name by {
          forall i | 0 <= i < |rest| ensures rest[i].newName != name {
            assert cs[0].newName != cs[i + 1].newName;
          }
        }
        assert WithoutNew(cs, name) == rest;
      } else {
        assert ([cs[0]] + WithoutNew(rest, name))[1..] == WithoutNew(rest, name);
        if forall i | 0 <= i < |cs| :: cs[i].newName != name {
          assert forall i | 0 <= i < |rest| :: rest[i].newName == cs[i + 1].newName;
          assert cs == [cs[0]] + rest;
        }
      }
    }
  }

  /** Charging argument: each accepted pair pays for at most two pairs of any other matching. */
  lemma {:induction false} GreedyHalf(cs: seq<Candidate>, usedOld: set<string>, usedNew: set<string>, m: seq<Candidate>)
    requires Descending(cs) && OneToOne(m)
    requires forall p | p in cs :: p.conf >= 0.0
    requires forall i | 0 <= i < |m| :: m[i] in cs && Free(m[i], usedOld, usedNew)
    ensures Total(m) <= 2.0 * Total(Greedy(cs, usedOld, usedNew))
  {
    if cs != [] {
      var h := cs[0];
      assert cs == [h] + cs[1..];
      if !Free(h, usedOld, usedNew) {
        GreedyHalf(cs[1..], usedOld, usedNew, m);
      } else {
        var m1 := WithoutOld(m, h.oldName);
        var m2 := WithoutNew(m1, h.newName);
        TwiceDropped(m, h);
        forall i | 0 <= i < |m2|
          ensures m2[i] in cs[1..] && Free(m2[i], usedOld + {h.oldName}, usedNew + {h.newName})
        {
          WithoutNewMembers(m1, h.newName, m2[i]);
          WithoutOldMembers(m, h.oldName, m2[i]);
        }
        GreedyHalf(cs[1..], usedOld + {h.oldName}, usedNew + {h.newName}, m2);
      }
    }
  }

  lemma TwiceDropped(m: seq<Candidate>, h: Candidate)
    requires OneToOne(m) && h.conf >= 0.0 && forall i | 0 <= i < |m| :: m[i].conf <= h.conf
    ensures var m2 := WithoutNew(WithoutOld(m, h.oldName), h.newName);
            OneToOne(m2) && Total(m) <= 2.0 * h.conf + Total(m2)
  {
    var m1 := WithoutOld(m, h.oldName);
    DropOld(m, h.oldName, h.conf);
    WithoutOldIsOneToOne(m, h.oldName);
    forall i | 0 <= i < |m1| ensures m1[i].conf <= h.conf {
      WithoutOldMembers(m, h.oldName, m1[i]);
    }
    DropNew(m1, h.newName, h.conf);
    WithoutNewIsOneToOne(m1, h.newName);
  }

  // ----- what the matching promises -----

  /** Accepted renames are one-to-one and each is a qualifying candidate. */
  lemma RenamesAreOneToOne(lib: Library, removed: seq<string>, added: seq<string>, before: seq<Field>,
                           after: seq<Field>)
    ensures var m := MatchingOf(lib, removed, added, before, after);
            && OneToOne(m.pairs)
            && forall p | p in m.pairs ::
                 p.oldName in removed && p.newName in added
                   && Qualifying(lib, p.oldName, p.newName, before, after) == Some(p)
  {
    var cs := Candidates(lib, removed, added, before, after);
    SortIsStableDescending(cs, 0.0);
    GreedyFacts(SortByConfidence(cs), {}, {});
    forall p | p in MatchingOf(lib, removed, added, before, after).pairs
      ensures p.oldName in removed && p.newName in added
        && Qualifying(lib, p.oldName, p.newName, before, after) == Some(p)
    {
      assert p in multiset(SortByConfidence(cs));
      CandidatesMembers(lib, removed, added, before, after, p);
    }
  }

  /** A qualifying pair is left out only when a pair at least as confident uses one of its names. */
  lemma RenamesAreMaximal(lib: Library, removed: seq<string>, added: seq<string>, before: seq<Field>, after: seq<Field>,
                          c: Candidate)
    requires c.oldName in removed && c.newName in added
      && Qualifying(lib, c.oldName, c.newName, before, after) == Some(c)
    ensures exists p ::
      p in MatchingOf(lib, removed, added, before, after).pairs && SharesName(p, c) && p.conf >= c.conf
  {
    var cs := Candidates(lib, removed, added, before, after);
    CandidatesMembers(lib, removed, added, before, after, c);
    SortIsStableDescending(cs, 0.0);
    assert c in multiset(cs);
    assert c in SortByConfidence(cs);
    GreedyDominates(SortByConfidence(cs), {}, {}, c);
  }

  /** The total confidence is at least half that of any one-to-one choice of qualifying pairs. */
  lemma RenamesAreHalfOptimal(lib: Library, removed: seq<string>, added: seq<string>, before: seq<Field>,
                              after: seq<Field>, m: seq<Candidate>)
    requires OneToOne(m)
    requires forall p | p in m ::
               p.oldName in removed && p.newName in added
                 && Qualifying(lib, p.oldName, p.newName, before, after) == Some(p)
    ensures Total(m) <= 2.0 * Total(MatchingOf(lib, removed, added, before, after).pairs)
  {
    var cs := Candidates(lib, removed, added, before, after);
    var sorted := SortByConfidence(cs);
    SortIsStableDescending(cs, 0.0);
    forall p | p in m ensures p in sorted {
      CandidatesMembers(lib, removed, added, before, after, p);
      assert p in multiset(cs);
    }
    forall p | p in sorted ensures p.conf >= 0.0 {
      assert p in multiset(cs);
      CandidatesMembers(lib, removed, added, before, after, p);
    }
    GreedyHalf(sorted, {}, {}, m);
  }

  lemma {:induction false} UnusedFacts(names: seq<string>, used: set<string>)
    ensures forall n :: n in Unused(names, used) <==> n in names && n !in used
    ensures (forall n | n in names :: n !in used) ==> Unused(names, used) == names
    ensures forall n :: multiset(Unused(names, used))[n] == if n in used then 0 else multiset(names)[n]
  {
    if names != [] {
      var front, last := names[..|names| - 1], names[|names| - 1];
      assert names == front + [last];
      UnusedFacts(front, used);
    }
  }

  /** No name is lost or duplicated: every removed name is either renamed or left over, never both,
      and likewise every added name. */
  lemma RenamesLoseNoName(lib: Library, removed: seq<string>, added: seq<string>, before: seq<Field>, after: seq<Field>)
    ensures var m := MatchingOf(lib, removed, added, before, after);
            && (forall n :: n in removed <==> n in Olds(m.pairs) || n in m.leftoverRemoved)
            && (forall n :: n in added <==> n in News(m.pairs) || n in m.leftoverAdded)
            && (forall n :: multiset(m.leftoverRemoved)[n] == if n in Olds(m.pairs) then 0 else multiset(removed)[n])
            && (forall n :: multiset(m.leftoverAdded)[n] == if n in News(m.pairs) then 0 else multiset(added)[n])
  {
    var m := MatchingOf(lib, removed, added, before, after);
    RenamesAreOneToOne(lib, removed, added, before, after);
    UnusedFacts(removed, Olds(m.pairs));
    UnusedFacts(added, News(m.pairs));
    forall n | n in Olds(m.pairs) ensures n in removed {
      var i :| 0 <= i < |m.pairs| && m.pairs[i].oldName == n;
      assert m.pairs[i] in m.pairs;
    }
    forall n | n in News(m.pairs) ensures n in added {
      var i :| 0 <= i < |m.pairs| && m.pairs[i].newName == n;
      assert m.pairs[i] in m.pairs;
    }
  }

  lemma {:induction false} NoCandidatesWithoutNames(lib: Library, removed: seq<string>, added: seq<string>,
                                                    before: seq<Field>, after: seq<Field>)
    requires removed == [] || added == []
    ensures Candidates(lib, removed, added, before, after) == []
  {
    if removed != [] {
      NoCandidatesWithoutNames(lib, removed[..|removed| - 1], added, before, after);
    }
  }

  lemma {:induction false} GreedyAppend(cs: seq<Candidate>, c: Candidate, usedOld: set<string>, usedNew: set<string>)
    ensures var g := Greedy(cs, usedOld, usedNew);
            Greedy(cs + [c], usedOld, usedNew)
            == g + if Free(c, usedOld + Olds(g), usedNew + News(g)) then [c] else []
  {
    if cs == [] {
      assert cs + [c] == [c];
    } else {
      assert (cs + [c])[1..] == cs[1..] + [c];
      var h := cs[0];
      if Free(h, usedOld, usedNew) {
        GreedyAppend(cs[1..], c, usedOld + {h.oldName}, usedNew + {h.newName});
        var g := Greedy(cs[1..], usedOld + {h.oldName}, usedNew + {h.newName});
        OldsOfCons(h, g);
        assert usedOld + {h.oldName} + Olds(g) == usedOld + Olds([h] + g);
        assert usedNew + {h.newName} + News(g) == usedNew + News([h] + g);
      } else {
        GreedyAppend(cs[1..], c, usedOld, usedNew);
      }
    }
  }

  lemma OldsOfCons(h: Candidate, g: seq<Candidate>)
    ensures Olds([h] + g) == {h.oldName} + Olds(g)
    ensures News([h] + g) == {h.newName} + News(g)
  {
    var s := [h] + g;
    assert s[0] == h;
    forall i | 0 <= i < |g| ensures g[i].oldName in Olds(s) && g[i].newName in News(s) {
      assert s[i + 1] == g[i];
    }
  }

  lemma OldsOfSnoc(g: seq<Candidate>, c: Candidate)
    ensures Olds(g + [c]) == Olds(g) + {c.oldName}
    ensures News(g + [c]) == News(g) + {c.newName}
  {
    var s := g + [c];
    assert s[|g|] == c;
    forall i | 0 <= i < |g| ensures g[i].oldName in Olds(s) && g[i].newName in News(s) {
      assert s[i] == g[i];
    }
  }

  /** The nested loop of `_match_renames` over removed and added names. */
  method ListCandidates(lib: Library, removed: seq<string>, added: seq<string>, before: seq<Field>, after: seq<Field>)
    returns (candidates: seq<Candidate>)
    ensures candidates == Candidates(lib, removed, added, before, after)
  {
    candidates := [];
    for i := 0 to |removed|
      invariant candidates == Candidates(lib, removed[..i], added, before, after)
    {
      ghost var outer := candidates;
      for j := 0 to |added|
        invariant candidates == outer + CandidatesFor(lib, removed[i], added[..j], before, after)
      {
        var conf := Confidence(lib, removed[i], added[j], Prop(before, removed[i]), Prop(after, added[j]));
        if conf.Some? && conf.value >= CONFIDENCE_THRESHOLD {
          candidates := candidates + [Candidate(conf.value, removed[i], added[j])];
        }
        assert added[..j + 1][..j] == added[..j];
      }
      assert added[..|added|] == added;
      assert removed[..i + 1][..i] == removed[..i];
    }
    assert removed[..|removed|] == removed;
  }

  /** The greedy loop of `_match_renames` over the sorted candidates. */
  method AcceptGreedily(candidates: seq<Candidate>)
    returns (pairs: seq<Candidate>, usedOld: set<string>, usedNew: set<string>)
    ensures pairs == Greedy(candidates, {}, {})
    ensures usedOld == Olds(pairs) && usedNew == News(pairs)
  {
    usedOld, usedNew := {}, {};
    pairs := [];
    for i := 0 to |candidates|
      invariant pairs == Greedy(candidates[..i], {}, {})
      invariant usedOld == Olds(pairs) && usedNew == News(pairs)
    {
      var c := candidates[i];
      GreedyAppend(candidates[..i], c, {}, {});
      assert candidates[..i + 1] == candidates[..i] + [c];
      if c.oldName in usedOld || c.newName in usedNew {
        continue;
      }
      OldsOfSnoc(pairs, c);
      pairs := pairs + [c];
      usedOld := usedOld + {c.oldName};
      usedNew := usedNew + {c.newName};
    }
    assert candidates[..|candidates|] == candidates;
  }

  /** `[n for n in names if n not in used]`. */
  method KeepUnused(names: seq<string>, used: set<string>) returns (leftover: seq<string>)
    ensures leftover == Unused(names, used)
  {
    leftover := [];
    for i := 0 to |names|
      invariant leftover == Unused(names[..i], used)
    {
      if names[i] !in used {
        leftover := leftover + [names[i]];
      }
      assert names[..i + 1][..i] == names[..i];
    }
    assert names[..|names|] == names;
  }

  /** `_match_renames`. */
  method MatchRenames(lib: Library, removed: seq<string>, added: seq<string>, before: seq<Field>, after: seq<Field>)
    returns (m: Matching)
    ensures m == MatchingOf(lib, removed, added, before, after)
  {
    if removed == [] || added == [] {
      NoCandidatesWithoutNames(lib, removed, added, before, after);
      UnusedFacts(removed, {});
      UnusedFacts(added, {});
      assert Olds([]) == {} && News([]) == {};
      return Matching([], removed, added);
    }
    var candidates := ListCandidates(lib, removed, added, before, after);
    candidates := SortByConfidence(candidates);
    var pairs, usedOld, usedNew := AcceptGreedily(candidates);
    var leftoverRemoved := KeepUnused(removed, usedOld);
    var leftoverAdded := KeepUnused(added, usedNew);
    m := Matching(pairs, leftoverRemoved, leftoverAdded);
  }
}
