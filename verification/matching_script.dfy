/** The matching test driver: its per-trip diagnostic and its scenarios, with
    `match_voyage` bound to the flat `_match` over the flat catalog. */
module MatchingScript {
  import opened Options
  import opened Criterion
  import Seqs
  import FlatAgent

  type Trip = FlatAgent.Trip

  /** One entry of `blocages`: the criterion, the requested value and the trip's value. */
  datatype Blocker = Blocker(crit: Key, demande: bool, voyage: bool)

  /** `blocages` over the keys `ks`, in their order. */
  function BlockersFrom(v: Trip, c: Criteria, ks: seq<Key>): (r: seq<Blocker>)
    ensures forall b :: b in r ==>
              && b.crit in ks && c.Get(b.crit) == Known(b.demande)
              && b.crit in v.flags && v.flags[b.crit] == b.voyage && b.voyage != b.demande
    ensures forall k :: k in ks && !FlatAgent.Agrees(v, k, c.Get(k)) ==>
              Blocker(k, c.Get(k).value, v.flags[k]) in r
    ensures |r| == 0 <==> FlatAgent.MatchFrom(v, c, ks)
    decreases |ks|
  {
    if |ks| == 0 then []
    else
      var k := ks[0];
      var rest := BlockersFrom(v, c, ks[1..]);
      if c.Get(k).Known? && k in v.flags && v.flags[k] != c.Get(k).value then
        [Blocker(k, c.Get(k).value, v.flags[k])] + rest
      else
        rest
  }

  /** The diagnostic for one trip: exactly the known criteria present on the
      trip whose value differs from the trip's; empty exactly when the trip matches. */
  function Blockers(v: Trip, c: Criteria): (r: seq<Blocker>)
    ensures forall b :: b in r ==>
              && c.Get(b.crit) == Known(b.demande)
              && b.crit in v.flags && v.flags[b.crit] == b.voyage && b.voyage != b.demande
    ensures forall k :: !FlatAgent.Agrees(v, k, c.Get(k)) ==> Blocker(k, c.Get(k).value, v.flags[k]) in r
    ensures |r| == 0 <==> FlatAgent.Match(v, c)
  {
    AllKeysListed();
    BlockersFrom(v, c, Keys)
  }

  /** The printed summary: match count, catalog size, and the proposed trip. */
  datatype Summary = Summary(matched: nat, total: nat, proposed: Option<Trip>)

  /** The report line for one trip: a match, or a non-match with its blockers. */
  datatype Line = Matched | Blocked(blockers: seq<Blocker>)

  /** What the report shows for one trip; a non-match lists exactly its
      blockers, and there is always at least one. */
  function Diagnostic(v: Trip, c: Criteria): (r: Line)
    ensures r.Matched? <==> FlatAgent.Match(v, c)
    ensures r.Blocked? ==> |r.blockers| > 0
    ensures r.Blocked? ==> r.blockers == Blockers(v, c)
  {
    if FlatAgent.Match(v, c) then Matched else Blocked(Blockers(v, c))
  }

  /** The closing summary: how many of the catalog's trips matched, and the
      first match, which is the one proposed to the user. */
  function Summarize(catalog: seq<Trip>, c: Criteria): (s: Summary)
    ensures s.matched == |FlatAgent.Matching(catalog, c)| <= s.total == |catalog|
    ensures s.proposed.Some? <==> exists t :: t in catalog && FlatAgent.Match(t, c)
    ensures s.proposed.Some? ==>
              exists i :: 0 <= i < |catalog| && catalog[i] == s.proposed.value
                          && FlatAgent.Match(catalog[i], c)
                          && forall j :: 0 <= j < i ==> !FlatAgent.Match(catalog[j], c)
  {
    var matches := FlatAgent.Matching(catalog, c);
    Seqs.SubseqLength(matches, catalog);
    if |matches| > 0 then
      assert exists i :: 0 <= i < |catalog| && catalog[i] == matches[0]
                         && FlatAgent.Match(catalog[i], c)
                         && forall j :: 0 <= j < i ==> !FlatAgent.Match(catalog[j], c) by {
        Seqs.FilterHead(catalog, FlatAgent.MatchPred(c));
        var i :| Seqs.FirstAccepted(catalog, FlatAgent.MatchPred(c), i) && catalog[i] == matches[0];
        assert forall j :: 0 <= j < i ==> !FlatAgent.Match(catalog[j], c);
      }
      Summary(|matches|, |catalog|, Some(matches[0]))
    else
      Summary(|matches|, |catalog|, None)
  }

  /** Everything `test_matching` reports, and returns as `matches`. */
  datatype Report = Report(matches: seq<Trip>, lines: seq<Line>, summary: Summary)

  /** `test_matching(name, criteres)` over a catalog: one line per trip in
      catalog order, the matching trips, and the summary. */
  function TestMatching(catalog: seq<Trip>, c: Criteria): (r: Report)
    ensures r.matches == FlatAgent.Matching(catalog, c)
    ensures forall t :: t in r.matches <==> t in catalog && FlatAgent.Match(t, c)
    ensures Seqs.IsSubseq(r.matches, catalog)
    ensures |r.lines| == |catalog|
    ensures forall i :: 0 <= i < |catalog| ==> (r.lines[i].Matched? <==> FlatAgent.Match(catalog[i], c))
    ensures forall i :: 0 <= i < |catalog| && r.lines[i].Blocked? ==> r.lines[i].blockers == Blockers(catalog[i], c)
    ensures r.summary.matched == |r.matches| <= r.summary.total == |catalog|
    ensures r.summary.proposed.Some? <==> |r.matches| > 0
    ensures r.summary.proposed.Some? ==> r.summary.proposed.value == r.matches[0]
  {
    var matches := FlatAgent.Matching(catalog, c);
    var lines := seq(|catalog|, i requires 0 <= i < |catalog| => Diagnostic(catalog[i], c));
    var summary := Summarize(catalog, c);
    assert |matches| == 0 ==> forall t :: t in catalog ==> !FlatAgent.Match(t, c);
    Report(matches, lines, summary)
  }

  // The scenarios of the matching script, over the flat catalog.

  const V := FlatAgent.Voyages

  /** Test 1: beach only. */
  const BeachOnly := Criteria(Known(true), Unknown, Unknown, Unknown, Unknown, Unknown)
  /** Test 2: mountain, no beach, no city. */
  const MountainStrict := Criteria(Known(false), Known(true), Known(false), Unknown, Unknown, Unknown)
  /** Test 3: sport in the mountains, not relaxing. */
  const SportMountain := Criteria(Known(false), Known(true), Known(false), Known(true), Known(false), Unknown)
  /** Test 4: relaxing and accessible, no sport. */
  const RelaxAccessible := Criteria(Unknown, Unknown, Unknown, Known(false), Known(true), Known(true))
  /** Test 5: beach and city, no mountain. */
  const BeachCity := Criteria(Known(true), Known(false), Known(true), Unknown, Unknown, Unknown)
  /** Test 6: beach, mountain and sport together. */
  const Restrictive := Criteria(Known(true), Known(true), Unknown, Known(true), Unknown, Unknown)
  /** Test 7: city, no beach, no mountain. */
  const CityOnly := Criteria(Known(false), Known(false), Known(true), Unknown, Unknown, Unknown)
  /** Test 9: countryside: no beach, mountain or city, relaxing. */
  const Countryside := Criteria(Known(false), Known(false), Known(false), Unknown, Known(true), Unknown)
  /** Test 10: sport, not relaxing. */
  const SportNoRelax := Criteria(Unknown, Unknown, Unknown, Known(true), Known(false), Unknown)

  /** The matches of a five-trip catalog, given which of its trips match. */
  lemma FiveMatches(xs: seq<Trip>, c: Criteria, m0: bool, m1: bool, m2: bool, m3: bool, m4: bool)
    requires |xs| == 5
    requires FlatAgent.Match(xs[0], c) == m0 && FlatAgent.Match(xs[1], c) == m1
    requires FlatAgent.Match(xs[2], c) == m2 && FlatAgent.Match(xs[3], c) == m3
    requires FlatAgent.Match(xs[4], c) == m4
    ensures FlatAgent.Matching(xs, c) ==
      (if m0 then [xs[0]] else []) + (if m1 then [xs[1]] else []) + (if m2 then [xs[2]] else []) +
      (if m3 then [xs[3]] else []) + (if m4 then [xs[4]] else [])
  {
    Seqs.FilterFive(xs, FlatAgent.MatchPred(c));
  }

  /** A five-trip catalog none of whose trips match keeps nothing. */
  lemma KeepNone(xs: seq<Trip>, c: Criteria)
    requires |xs| == 5
    requires !FlatAgent.Match(xs[0], c) && !FlatAgent.Match(xs[1], c)
    requires !FlatAgent.Match(xs[2], c) && !FlatAgent.Match(xs[3], c)
    requires !FlatAgent.Match(xs[4], c)
    ensures FlatAgent.Matching(xs, c) == []
  {
    FiveMatches(xs, c, false, false, false, false, false);
  }

  /** A five-trip catalog of which the fourth trip alone matches keeps exactly that one. */
  lemma KeepFourth(xs: seq<Trip>, c: Criteria)
    requires |xs| == 5
    requires !FlatAgent.Match(xs[0], c) && !FlatAgent.Match(xs[1], c)
    requires !FlatAgent.Match(xs[2], c) && FlatAgent.Match(xs[3], c)
    requires !FlatAgent.Match(xs[4], c)
    ensures FlatAgent.Matching(xs, c) == [xs[3]]
  {
    FiveMatches(xs, c, false, false, false, true, false);
  }

  /** A five-trip catalog of which the fifth trip alone matches keeps exactly that one. */
  lemma KeepFifth(xs: seq<Trip>, c: Criteria)
    requires |xs| == 5
    requires !FlatAgent.Match(xs[0], c) && !FlatAgent.Match(xs[1], c)
    requires !FlatAgent.Match(xs[2], c) && !FlatAgent.Match(xs[3], c)
    requires FlatAgent.Match(xs[4], c)
    ensures FlatAgent.Matching(xs, c) == [xs[4]]
  {
    FiveMatches(xs, c, false, false, false, false, true);
  }

  /** A five-trip catalog of which the first and the third trips alone match keeps exactly those. */
  lemma KeepFirstAndThird(xs: seq<Trip>, c: Criteria)
    requires |xs| == 5
    requires FlatAgent.Match(xs[0], c) && !FlatAgent.Match(xs[1], c)
    requires FlatAgent.Match(xs[2], c) && !FlatAgent.Match(xs[3], c)
    requires !FlatAgent.Match(xs[4], c)
    ensures FlatAgent.Matching(xs, c) == [xs[0], xs[2]]
  {
    FiveMatches(xs, c, true, false, true, false, false);
  }

  /** A five-trip catalog of which the second and the fourth trips alone match keeps exactly those. */
  lemma KeepSecondAndFourth(xs: seq<Trip>, c: Criteria)
    requires |xs| == 5
    requires !FlatAgent.Match(xs[0], c) && FlatAgent.Match(xs[1], c)
    requires !FlatAgent.Match(xs[2], c) && FlatAgent.Match(xs[3], c)
    requires !FlatAgent.Match(xs[4], c)
    ensures FlatAgent.Matching(xs, c) == [xs[1], xs[3]]
  {
    FiveMatches(xs, c, false, true, false, true, false);
  }

  /** A five-trip catalog of which the first three trips alone match keeps exactly those. */
  lemma KeepFirstThree(xs: seq<Trip>, c: Criteria)
    requires |xs| == 5
    requires FlatAgent.Match(xs[0], c) && FlatAgent.Match(xs[1], c)
    requires FlatAgent.Match(xs[2], c) && !FlatAgent.Match(xs[3], c)
    requires !FlatAgent.Match(xs[4], c)
    ensures FlatAgent.Matching(xs, c) == [xs[0], xs[1], xs[2]]
  {
    FiveMatches(xs, c, true, true, true, false, false);
  }

  /** A trip matches once each of the six keys agrees. */
  lemma MatchByKeys(v: Trip, c: Criteria)
    requires FlatAgent.Agrees(v, Plage, c.plage) && FlatAgent.Agrees(v, Montagne, c.montagne)
    requires FlatAgent.Agrees(v, Ville, c.ville) && FlatAgent.Agrees(v, Sport, c.sport)
    requires FlatAgent.Agrees(v, Detente, c.detente) && FlatAgent.Agrees(v, AccesHandicap, c.accesHandicap)
    ensures FlatAgent.Match(v, c)
  {
    forall k: Key ensures FlatAgent.Agrees(v, k, c.Get(k)) {
      match k
      case Plage =>
      case Montagne =>
      case Ville =>
      case Sport =>
      case Detente =>
      case AccesHandicap =>
    }
  }

  /** Test 1, trip by trip. */
  lemma Test1Each()
    ensures !FlatAgent.Match(V[0], BeachOnly)
    ensures !FlatAgent.Match(V[1], BeachOnly)
    ensures !FlatAgent.Match(V[2], BeachOnly)
    ensures FlatAgent.Match(V[3], BeachOnly)
    ensures !FlatAgent.Match(V[4], BeachOnly)
  {
    var c := BeachOnly;
    assert !FlatAgent.Agrees(V[0], Plage, c.Get(Plage));
    assert !FlatAgent.Agrees(V[1], Plage, c.Get(Plage));
    assert !FlatAgent.Agrees(V[2], Plage, c.Get(Plage));
    MatchByKeys(V[3], c);
    assert !FlatAgent.Agrees(V[4], Plage, c.Get(Plage));
  }

  /** Test 1: only Palavas has a beach. */
  lemma Test1()
    ensures FlatAgent.Matching(V, BeachOnly) == [V[3]]
  {
    Test1Each();
    KeepFourth(V, BeachOnly);
  }

  /** Test 2, trip by trip. */
  lemma Test2Each()
    ensures FlatAgent.Match(V[0], MountainStrict)
    ensures FlatAgent.Match(V[1], MountainStrict)
    ensures FlatAgent.Match(V[2], MountainStrict)
    ensures !FlatAgent.Match(V[3], MountainStrict)
    ensures !FlatAgent.Match(V[4], MountainStrict)
  {
    var c := MountainStrict;
    MatchByKeys(V[0], c);
    MatchByKeys(V[1], c);
    MatchByKeys(V[2], c);
    assert !FlatAgent.Agrees(V[3], Plage, c.Get(Plage));
    assert !FlatAgent.Agrees(V[4], Montagne, c.Get(Montagne));
  }

  /** Test 2: the three Chamonix and Lozère trips, all in the mountains. */
  lemma Test2()
    ensures FlatAgent.Matching(V, MountainStrict) == [V[0], V[1], V[2]]
  {
    Test2Each();
    KeepFirstThree(V, MountainStrict);
  }

  /** Test 3, trip by trip. */
  lemma Test3Each()
    ensures FlatAgent.Match(V[0], SportMountain)
    ensures !FlatAgent.Match(V[1], SportMountain)
    ensures FlatAgent.Match(V[2], SportMountain)
    ensures !FlatAgent.Match(V[3], SportMountain)
    ensures !FlatAgent.Match(V[4], SportMountain)
  {
    var c := SportMountain;
    MatchByKeys(V[0], c);
    assert !FlatAgent.Agrees(V[1], Sport, c.Get(Sport));
    MatchByKeys(V[2], c);
    assert !FlatAgent.Agrees(V[3], Plage, c.Get(Plage));
    assert !FlatAgent.Agrees(V[4], Montagne, c.Get(Montagne));
  }

  /** Test 3: Lozère and the ski option; the fondue option has no sport. */
  lemma Test3()
    ensures FlatAgent.Matching(V, SportMountain) == [V[0], V[2]]
  {
    Test3Each();
    KeepFirstAndThird(V, SportMountain);
  }

  /** Test 4, trip by trip. */
  lemma Test4Each()
    ensures !FlatAgent.Match(V[0], RelaxAccessible)
    ensures FlatAgent.Match(V[1], RelaxAccessible)
    ensures !FlatAgent.Match(V[2], RelaxAccessible)
    ensures FlatAgent.Match(V[3], RelaxAccessible)
    ensures !FlatAgent.Match(V[4], RelaxAccessible)
  {
    var c := RelaxAccessible;
    assert !FlatAgent.Agrees(V[0], Sport, c.Get(Sport));
    MatchByKeys(V[1], c);
    assert !FlatAgent.Agrees(V[2], Sport, c.Get(Sport));
    MatchByKeys(V[3], c);
    assert !FlatAgent.Agrees(V[4], AccesHandicap, c.Get(AccesHandicap));
  }

  /** Test 4: the fondue option and Palavas. */
  lemma Test4()
    ensures FlatAgent.Matching(V, RelaxAccessible) == [V[1], V[3]]
  {
    Test4Each();
    KeepSecondAndFourth(V, RelaxAccessible);
  }

  /** Test 5, trip by trip. */
  lemma Test5Each()
    ensures !FlatAgent.Match(V[0], BeachCity)
    ensures !FlatAgent.Match(V[1], BeachCity)
    ensures !FlatAgent.Match(V[2], BeachCity)
    ensures FlatAgent.Match(V[3], BeachCity)
    ensures !FlatAgent.Match(V[4], BeachCity)
  {
    var c := BeachCity;
    assert !FlatAgent.Agrees(V[0], Plage, c.Get(Plage));
    assert !FlatAgent.Agrees(V[1], Plage, c.Get(Plage));
    assert !FlatAgent.Agrees(V[2], Plage, c.Get(Plage));
    MatchByKeys(V[3], c);
    assert !FlatAgent.Agrees(V[4], Plage, c.Get(Plage));
  }

  /** Test 5: Palavas alone. */
  lemma Test5()
    ensures FlatAgent.Matching(V, BeachCity) == [V[3]]
  {
    Test5Each();
    KeepFourth(V, BeachCity);
  }

  /** Test 6, trip by trip. */
  lemma Test6Each()
    ensures !FlatAgent.Match(V[0], Restrictive)
    ensures !FlatAgent.Match(V[1], Restrictive)
    ensures !FlatAgent.Match(V[2], Restrictive)
    ensures !FlatAgent.Match(V[3], Restrictive)
    ensures !FlatAgent.Match(V[4], Restrictive)
  {
    var c := Restrictive;
    assert !FlatAgent.Agrees(V[0], Plage, c.Get(Plage));
    assert !FlatAgent.Agrees(V[1], Plage, c.Get(Plage));
    assert !FlatAgent.Agrees(V[2], Plage, c.Get(Plage));
    assert !FlatAgent.Agrees(V[3], Montagne, c.Get(Montagne));
    assert !FlatAgent.Agrees(V[4], Plage, c.Get(Plage));
  }

  /** Test 6: no trip: the only beach has no mountain. */
  lemma Test6()
    ensures FlatAgent.Matching(V, Restrictive) == []
  {
    Test6Each();
    KeepNone(V, Restrictive);
  }

  /** Test 7, trip by trip. */
  lemma Test7Each()
    ensures !FlatAgent.Match(V[0], CityOnly)
    ensures !FlatAgent.Match(V[1], CityOnly)
    ensures !FlatAgent.Match(V[2], CityOnly)
    ensures !FlatAgent.Match(V[3], CityOnly)
    ensures !FlatAgent.Match(V[4], CityOnly)
  {
    var c := CityOnly;
    assert !FlatAgent.Agrees(V[0], Montagne, c.Get(Montagne));
    assert !FlatAgent.Agrees(V[1], Montagne, c.Get(Montagne));
    assert !FlatAgent.Agrees(V[2], Montagne, c.Get(Montagne));
    assert !FlatAgent.Agrees(V[3], Plage, c.Get(Plage));
    assert !FlatAgent.Agrees(V[4], Ville, c.Get(Ville));
  }

  /** Test 7: no trip: the only city is also a beach. */
  lemma Test7()
    ensures FlatAgent.Matching(V, CityOnly) == []
  {
    Test7Each();
    KeepNone(V, CityOnly);
  }

  /** Test 9, trip by trip. */
  lemma Test9Each()
    ensures !FlatAgent.Match(V[0], Countryside)
    ensures !FlatAgent.Match(V[1], Countryside)
    ensures !FlatAgent.Match(V[2], Countryside)
    ensures !FlatAgent.Match(V[3], Countryside)
    ensures FlatAgent.Match(V[4], Countryside)
  {
    var c := Countryside;
    assert !FlatAgent.Agrees(V[0], Montagne, c.Get(Montagne));
    assert !FlatAgent.Agrees(V[1], Montagne, c.Get(Montagne));
    assert !FlatAgent.Agrees(V[2], Montagne, c.Get(Montagne));
    assert !FlatAgent.Agrees(V[3], Plage, c.Get(Plage));
    MatchByKeys(V[4], c);
  }

  /** Test 9: the countryside trip alone. */
  lemma Test9()
    ensures FlatAgent.Matching(V, Countryside) == [V[4]]
  {
    Test9Each();
    KeepFifth(V, Countryside);
  }

  /** Test 10, trip by trip. */
  lemma Test10Each()
    ensures FlatAgent.Match(V[0], SportNoRelax)
    ensures !FlatAgent.Match(V[1], SportNoRelax)
    ensures FlatAgent.Match(V[2], SportNoRelax)
    ensures !FlatAgent.Match(V[3], SportNoRelax)
    ensures !FlatAgent.Match(V[4], SportNoRelax)
  {
    var c := SportNoRelax;
    MatchByKeys(V[0], c);
    assert !FlatAgent.Agrees(V[1], Sport, c.Get(Sport));
    MatchByKeys(V[2], c);
    assert !FlatAgent.Agrees(V[3], Sport, c.Get(Sport));
    assert !FlatAgent.Agrees(V[4], Sport, c.Get(Sport));
  }

  /** Test 10: Lozère and the ski option. */
  lemma Test10()
    ensures FlatAgent.Matching(V, SportNoRelax) == [V[0], V[2]]
  {
    Test10Each();
    KeepFirstAndThird(V, SportNoRelax);
  }

  /** Test 8: with every criterion unknown, every trip of any catalog matches,
      in order, and the first trip is proposed. */
  lemma Test8(catalog: seq<Trip>)
    ensures TestMatching(catalog, Empty).matches == catalog
    ensures forall i :: 0 <= i < |catalog| ==> TestMatching(catalog, Empty).lines[i] == Matched
    ensures |catalog| > 0 ==> TestMatching(catalog, Empty).summary.proposed == Some(catalog[0])
  {
    forall i | 0 <= i < |catalog| ensures FlatAgent.MatchPred(Empty)(catalog[i]) {
      FlatAgent.MatchAllUnknown(catalog[i]);
    }
    Seqs.FilterAll(catalog, FlatAgent.MatchPred(Empty));
  }

  /** One step of the `blocages` loop: the first key contributes its blocker, if any,
      ahead of the blockers of the remaining keys. */
  lemma BlockersCons(v: Trip, c: Criteria, k: Key, ks: seq<Key>)
    ensures BlockersFrom(v, c, [k] + ks) ==
              (if FlatAgent.Agrees(v, k, c.Get(k)) then [] else [Blocker(k, c.Get(k).value, v.flags[k])])
              + BlockersFrom(v, c, ks)
  {
    assert ([k] + ks)[1..] == ks;
  }
}
