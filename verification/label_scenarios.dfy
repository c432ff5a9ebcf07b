/** What `trouver_voyage` and `process_message` choose on the five-trip label
    catalog for three requests: a single match, a three-way tie, and a win on
    the relevance penalty. */
module LabelScenarios {
  import opened Options
  import opened Criterion
  import opened LabelAgent
  import Seqs

  // Shapes of a five-trip filter, stated for any five trips so that the
  // catalog's literal entries are only substituted at the end.

  lemma KeepThird(xs: seq<Trip>, c: Criteria)
    requires |xs| == 5
    requires !MatchCriteres(xs[0], c) && !MatchCriteres(xs[1], c) && MatchCriteres(xs[2], c)
    requires !MatchCriteres(xs[3], c) && !MatchCriteres(xs[4], c)
    ensures Matches(xs, c) == [xs[2]]
  {
    Seqs.FilterFive(xs, MatchPred(c));
  }

  lemma KeepFirstSecondFifth(xs: seq<Trip>, c: Criteria)
    requires |xs| == 5
    requires MatchCriteres(xs[0], c) && MatchCriteres(xs[1], c) && !MatchCriteres(xs[2], c)
    requires !MatchCriteres(xs[3], c) && MatchCriteres(xs[4], c)
    ensures Matches(xs, c) == [xs[0], xs[1], xs[4]]
  {
    Seqs.FilterFive(xs, MatchPred(c));
  }

  lemma KeepSecondToFourth(xs: seq<Trip>, c: Criteria)
    requires |xs| == 5
    requires !MatchCriteres(xs[0], c) && MatchCriteres(xs[1], c) && MatchCriteres(xs[2], c)
    requires MatchCriteres(xs[3], c) && !MatchCriteres(xs[4], c)
    ensures Matches(xs, c) == [xs[1], xs[2], xs[3]]
  {
    Seqs.FilterFive(xs, MatchPred(c));
  }

  /** Three matches with one score: the first is returned. */
  lemma FirstOfThreeTies(xs: seq<Trip>, c: Criteria, w: Trip, a: Trip, b: Trip)
    requires Matches(xs, c) == [w, a, b]
    requires ScoreVoyage(c, a) == ScoreVoyage(c, w) && ScoreVoyage(c, b) == ScoreVoyage(c, w)
    ensures TrouverVoyage(xs, c) == Some(w)
  {
    var ms := Matches(xs, c);
    var ss := Scores(ms, c);
    assert ss[0] == ss[1] == ss[2];
    var r := TrouverVoyage(xs, c);
    var k :| IsFirstMax(ss, k) && ms[k] == r.value;
    assert !Beats(ss[k], ss[0]);
  }

  /** Three matches where the last beats the other two: the last is returned. */
  lemma LastOfThreeWins(xs: seq<Trip>, c: Criteria, a: Trip, b: Trip, w: Trip)
    requires Matches(xs, c) == [a, b, w]
    requires Beats(ScoreVoyage(c, w), ScoreVoyage(c, a)) && Beats(ScoreVoyage(c, w), ScoreVoyage(c, b))
    ensures TrouverVoyage(xs, c) == Some(w)
  {
    var ms := Matches(xs, c);
    var ss := Scores(ms, c);
    var r := TrouverVoyage(xs, c);
    var k :| IsFirstMax(ss, k) && ms[k] == r.value;
    assert !Beats(ss[2], ss[k]);
  }

  /** The relevance penalty of each catalog trip: "campagne" is not counted. */
  lemma RelevantCounts()
    ensures CountRelevant(Ski.labels) == 2 && CountRelevant(Fondue.labels) == 2
    ensures CountRelevant(Palavas.labels) == 3 && CountRelevant(RaseCampagne.labels) == 1
    ensures CountRelevant(Lozere.labels) == 2
  {
  }

  const BeachRelax := Criteria(Known(true), Unknown, Unknown, Unknown, Known(true), Unknown)
  const MountainOnly := Criteria(Unknown, Known(true), Unknown, Unknown, Unknown, Unknown)
  const RelaxOnly := Criteria(Unknown, Unknown, Unknown, Unknown, Known(true), Unknown)

  // Beach and relaxation: only Palavas carries both labels.

  lemma BeachRelaxEach()
    ensures !MatchCriteres(Ski, BeachRelax) && !MatchCriteres(Fondue, BeachRelax)
    ensures MatchCriteres(Palavas, BeachRelax)
    ensures !MatchCriteres(RaseCampagne, BeachRelax) && !MatchCriteres(Lozere, BeachRelax)
  {
    assert !Satisfies(Ski, Plage, BeachRelax.Get(Plage));
  }

  lemma BeachRelaxPicksPalavas()
    ensures TrouverVoyage(Voyages, BeachRelax) == Some(Palavas)
  {
    BeachRelaxEach();
    KeepThird(Voyages, BeachRelax);
    TrouverVoyageSingle(Voyages, BeachRelax);
  }

  /** A turn asking for beach and relaxation recommends Palavas and stores
      exactly those two criteria, whatever the previous turn left. */
  lemma BeachRelaxTurn(prior: Criteria)
    ensures ProcessMessage(prior, Extracted(BeachRelax)) == Update(Recommendation(Palavas), BeachRelax)
  {
    BeachRelaxPicksPalavas();
    Extensionality(ProcessMessage(prior, Extracted(BeachRelax)).criteres, BeachRelax);
  }

  // Mountain only: ski, fondue and Lozère match with equal scores.

  lemma MountainOnlyEach()
    ensures MatchCriteres(Ski, MountainOnly) && MatchCriteres(Fondue, MountainOnly)
    ensures !MatchCriteres(Palavas, MountainOnly)
    ensures !MatchCriteres(RaseCampagne, MountainOnly) && MatchCriteres(Lozere, MountainOnly)
  {
  }

  lemma MountainOnlyHits()
    ensures Hits(Ski, MountainOnly, Keys) == 1 && Hits(Fondue, MountainOnly, Keys) == 1
    ensures Hits(Lozere, MountainOnly, Keys) == 1
  {
  }

  /** The three-way tie goes to the first of them in the catalog, the ski trip. */
  lemma MountainTieGoesToSki()
    ensures TrouverVoyage(Voyages, MountainOnly) == Some(Ski)
  {
    MountainOnlyEach();
    KeepFirstSecondFifth(Voyages, MountainOnly);
    MountainOnlyHits();
    RelevantCounts();
    EqualScores(MountainOnly, Ski, Fondue);
    EqualScores(MountainOnly, Ski, Lozere);
    FirstOfThreeTies(Voyages, MountainOnly, Ski, Fondue, Lozere);
  }

  // Relaxation only: fondue, Palavas and rase campagne match with one hit each.

  lemma RelaxOnlyRejects()
    ensures !MatchCriteres(Ski, RelaxOnly) && !MatchCriteres(Lozere, RelaxOnly)
  {
    assert !Satisfies(Ski, Detente, RelaxOnly.Get(Detente));
    assert !Satisfies(Lozere, Detente, RelaxOnly.Get(Detente));
  }

  lemma RelaxOnlyAccepts()
    ensures MatchCriteres(Fondue, RelaxOnly) && MatchCriteres(Palavas, RelaxOnly)
    ensures MatchCriteres(RaseCampagne, RelaxOnly)
  {
  }

  lemma RelaxOnlyHits()
    ensures Hits(Fondue, RelaxOnly, Keys) == 1 && Hits(Palavas, RelaxOnly, Keys) == 1
    ensures Hits(RaseCampagne, RelaxOnly, Keys) == 1
  {
  }

  /** Rase campagne wins over the earlier matches because "campagne" is not a
      relevant label, so it carries the fewest relevant labels. */
  lemma RelaxPicksRaseCampagne()
    ensures TrouverVoyage(Voyages, RelaxOnly) == Some(RaseCampagne)
  {
    RelaxOnlyRejects();
    RelaxOnlyAccepts();
    KeepSecondToFourth(Voyages, RelaxOnly);
    RelaxOnlyHits();
    RelevantCounts();
    FewerRelevantWins(RelaxOnly, RaseCampagne, Fondue);
    FewerRelevantWins(RelaxOnly, RaseCampagne, Palavas);
    LastOfThreeWins(Voyages, RelaxOnly, Fondue, Palavas, RaseCampagne);
  }
}
