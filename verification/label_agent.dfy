/** The single-node agent with a label catalog, a scored tie-break and a
    mandatory reset of the criteria at every turn. */
module LabelAgent {
  import opened Options
  import opened Criterion
  import Seqs

  /** A catalog entry: display name, descriptive labels, and the accessibility
      flag (Unknown when the entry has no such key). */
  datatype Trip = Trip(nom: string, labels: seq<string>, accessibleHandicap: Tri)

  const Ski := Trip("5 étoiles à Chamonix option ski", ["montagne", "sport"], Known(false))
  const Fondue := Trip("5 étoiles à Chamonix option fondue", ["montagne", "detente"], Known(true))
  const Palavas := Trip("Palavas de paillotes en paillotes", ["plage", "ville", "detente"], Known(true))
  const RaseCampagne := Trip("5 étoiles en rase campagne", ["campagne", "detente"], Known(true))
  const Lozere := Trip("Randonnée camping en Lozère", ["sport", "montagne", "campagne"], Known(false))

  /** The catalog `VOYAGES`, in its order. */
  const Voyages: seq<Trip> := [Ski, Fondue, Palavas, RaseCampagne, Lozere]

  // ---------------------------------------------------------------------
  // Matching
  // ---------------------------------------------------------------------

  /** The labels that witness a label criterion; accessibility has none. */
  function RequiredLabels(k: Key): seq<string> {
    match k
    case Plage => ["plage"]
    case Montagne => ["montagne"]
    case Ville => ["ville"]
    case Sport => ["sport"]
    case Detente => ["detente", "détente"]
    case AccesHandicap => []
  }

  /** `any(l in labels for l in required)` */
  function AnyIn(required: seq<string>, labels: seq<string>): (r: bool)
    ensures r <==> exists l :: l in required && l in labels
    decreases |required|
  {
    if |required| == 0 then false
    else if required[0] in labels then true
    else AnyIn(required[1..], labels)
  }

  predicate HasLabel(t: Trip, k: Key) {
    AnyIn(RequiredLabels(k), t.labels)
  }

  /** `voyage.get("accessibleHandicap", False)` */
  function AccessibleOrFalse(t: Trip): bool {
    match t.accessibleHandicap
    case Unknown => false
    case Known(b) => b
  }

  /** What one criterion value demands of a trip. */
  predicate Satisfies(t: Trip, k: Key, want: Tri) {
    match want
    case Unknown => true
    case Known(b) =>
      if k == AccesHandicap then b == AccessibleOrFalse(t)
      else if b then HasLabel(t, k)
      else !HasLabel(t, k)
  }

  /** The loop of `match_criteres` over the keys `ks`, returning False at the
      first criterion the trip violates. */
  function MatchFrom(t: Trip, c: Criteria, ks: seq<Key>): (r: bool)
    ensures r <==> forall k :: k in ks ==> Satisfies(t, k, c.Get(k))
    decreases |ks|
  {
    if |ks| == 0 then true
    else if !Satisfies(t, ks[0], c.Get(ks[0])) then false
    else MatchFrom(t, c, ks[1..])
  }

  /** `match_criteres(voyage, criteres)` */
  function MatchCriteres(t: Trip, c: Criteria): (r: bool)
    ensures r <==> forall k :: Satisfies(t, k, c.Get(k))
  {
    AllKeysListed();
    MatchFrom(t, c, Keys)
  }

  /** With every criterion None, every trip is accepted. */
  lemma MatchAllUnknown(t: Trip)
    ensures MatchCriteres(t, Empty)
  {
  }

  /** A known label criterion accepts a trip exactly when the trip's labels
      agree with it: True needs the label, False forbids it. */
  lemma LabelCriterion(t: Trip, c: Criteria, k: Key)
    requires k != AccesHandicap && c.Get(k).Known?
    requires MatchCriteres(t, c)
    ensures HasLabel(t, k) == c.Get(k).value
  {
  }

  /** A violated label criterion rejects the trip whatever the other criteria say. */
  lemma LabelMismatchRejects(t: Trip, c: Criteria, k: Key)
    requires k != AccesHandicap && c.Get(k).Known?
    requires HasLabel(t, k) != c.Get(k).value
    ensures !MatchCriteres(t, c)
  {
  }

  /** Relaxation is witnessed by either spelling of its label. */
  lemma DetenteEitherSpelling(t: Trip)
    ensures HasLabel(t, Detente) <==> ("detente" in t.labels || "détente" in t.labels)
  {
    var req := RequiredLabels(Detente);
    assert req[0] == "detente" && req[1] == "détente";
  }

  /** A known accessibility criterion must equal the trip's flag, a missing
      flag counting as False. */
  lemma AccessCriterion(t: Trip, c: Criteria)
    requires c.Get(AccesHandicap).Known?
    ensures MatchCriteres(t, c) ==> AccessibleOrFalse(t) == c.Get(AccesHandicap).value
    ensures t.accessibleHandicap.Unknown? && c.Get(AccesHandicap) == Known(true) ==> !MatchCriteres(t, c)
  {
  }

  // ---------------------------------------------------------------------
  // Scoring
  // ---------------------------------------------------------------------

  /** The tuple `(matches_count, -total_relevant, acces_bonus)`. */
  datatype Score = Score(hits: int, negRelevant: int, bonus: int)

  /** Python's tuple comparison `a > b`: lexicographic, component by component. */
  predicate Beats(a: Score, b: Score) {
    || a.hits > b.hits
    || (a.hits == b.hits && a.negRelevant > b.negRelevant)
    || (a.hits == b.hits && a.negRelevant == b.negRelevant && a.bonus > b.bonus)
  }

  /** The label map of `score_voyage`: a single label per criterion, and only
      the unaccented "detente". */
  function ScoreLabel(k: Key): Option<string> {
    match k
    case Plage => Some("plage")
    case Montagne => Some("montagne")
    case Ville => Some("ville")
    case Sport => Some("sport")
    case Detente => Some("detente")
    case AccesHandicap => None
  }

  const RelevantLabels: seq<string> := ["plage", "montagne", "ville", "sport", "detente"]

  predicate IsHit(t: Trip, c: Criteria, k: Key) {
    c.Get(k) == Known(true) && ScoreLabel(k).Some? && ScoreLabel(k).value in t.labels
  }

  /** Number of keys in `ks` that are true in the criteria and whose label the trip carries. */
  function Hits(t: Trip, c: Criteria, ks: seq<Key>): (n: nat)
    ensures n <= |ks|
    decreases |ks|
  {
    if |ks| == 0 then 0
    else (if IsHit(t, c, ks[0]) then 1 else 0) + Hits(t, c, ks[1..])
  }

  /** `len([l for l in labels if l in label_map.values()])`, duplicates included. */
  function CountRelevant(labels: seq<string>): (n: nat)
    ensures n <= |labels|
    ensures n == 0 <==> forall l :: l in labels ==> l !in RelevantLabels
    decreases |labels|
  {
    if |labels| == 0 then 0
    else (if labels[0] in RelevantLabels then 1 else 0) + CountRelevant(labels[1..])
  }

  function HitPred(t: Trip, c: Criteria): Key -> bool {
    k => IsHit(t, c, k)
  }

  function RelevantPred(): string -> bool {
    l => l in RelevantLabels
  }

  /** The hit count is the length of the list of keys that are hits. */
  lemma {:induction false} HitsCountsHitKeys(t: Trip, c: Criteria, ks: seq<Key>)
    ensures Hits(t, c, ks) == |Seqs.Filter(ks, HitPred(t, c))|
    decreases |ks|
  {
    if |ks| > 0 {
      HitsCountsHitKeys(t, c, ks[1..]);
    }
  }

  /** The relevant count is the length of the list comprehension that keeps
      the scored labels, duplicates included. */
  lemma {:induction false} CountRelevantIsComprehension(labels: seq<string>)
    ensures CountRelevant(labels) == |Seqs.Filter(labels, RelevantPred())|
    decreases |labels|
  {
    if |labels| > 0 {
      CountRelevantIsComprehension(labels[1..]);
    }
  }

  /** `score_voyage(voyage)` for the criteria of the turn. */
  function ScoreVoyage(c: Criteria, t: Trip): (s: Score)
    ensures 0 <= s.hits <= |Keys|
    ensures -|t.labels| <= s.negRelevant <= 0
    ensures s.bonus == 1 <==> c.Get(AccesHandicap) == Known(true) && t.accessibleHandicap == Known(true)
    ensures s.bonus == 0 || s.bonus == 1
  {
    var bonus := if c.accesHandicap == Known(true) && t.accessibleHandicap == Known(true) then 1 else 0;
    Score(Hits(t, c, Keys), -(CountRelevant(t.labels) as int), bonus)
  }

  /** The score's first two components are counts over the trip: the criteria
      that are true and carried as labels, and the scored labels, repeats included. */
  lemma {:induction false} ScoreVoyageCounts(c: Criteria, t: Trip)
    ensures ScoreVoyage(c, t).hits == |Seqs.Filter(Keys, HitPred(t, c))|
    ensures ScoreVoyage(c, t).negRelevant == -|Seqs.Filter(t.labels, RelevantPred())|
  {
    HitsCountsHitKeys(t, c, Keys);
    CountRelevantIsComprehension(t.labels);
  }

  /** `k` is where Python's `max` stops on the scores `ss`: no score is higher,
      and every score before it is strictly lower. */
  ghost predicate IsFirstMax(ss: seq<Score>, k: int) {
    && 0 <= k < |ss|
    && (forall j :: 0 <= j < |ss| ==> !Beats(ss[j], ss[k]))
    && (forall j :: 0 <= j < k ==> Beats(ss[k], ss[j]))
  }

  /** Python's `max`: scan left to right, replacing the current best only by a
      strictly greater score. */
  function FirstMax(ss: seq<Score>): (k: nat)
    requires |ss| > 0
    ensures IsFirstMax(ss, k)
    decreases |ss|
  {
    if |ss| == 1 then 0
    else
      var init := ss[..|ss| - 1];
      var k := FirstMax(init);
      assert forall j :: 0 <= j < |init| ==> init[j] == ss[j];
      if Beats(ss[|ss| - 1], ss[k]) then |ss| - 1 else k
  }

  /** The first maximum is unique: the argmax is a function of the list. */
  lemma FirstMaxUnique(ss: seq<Score>, k1: int, k2: int)
    requires IsFirstMax(ss, k1) && IsFirstMax(ss, k2)
    ensures k1 == k2
  {
    var a, b := ss[k1], ss[k2];
    assert !Beats(a, b) && !Beats(b, a);
  }

  /** The scores of the matching trips, in order. */
  function Scores(ms: seq<Trip>, c: Criteria): (ss: seq<Score>)
    ensures |ss| == |ms|
    ensures forall i :: 0 <= i < |ms| ==> ss[i] == ScoreVoyage(c, ms[i])
  {
    seq(|ms|, i requires 0 <= i < |ms| => ScoreVoyage(c, ms[i]))
  }

  // ---------------------------------------------------------------------
  // trouver_voyage
  // ---------------------------------------------------------------------

  function MatchPred(c: Criteria): Trip -> bool {
    t => MatchCriteres(t, c)
  }

  /** The trips of `catalog` that pass `match_criteres`, in catalog order. */
  function Matches(catalog: seq<Trip>, c: Criteria): (ms: seq<Trip>)
    ensures forall t :: t in ms <==> t in catalog && MatchCriteres(t, c)
    ensures Seqs.IsSubseq(ms, catalog)
  {
    Seqs.Filter(catalog, MatchPred(c))
  }

  /** Each accepted catalog entry is kept as often as the catalog lists it,
      and nothing else is kept. */
  lemma {:induction false} MatchesKeepsCounts(catalog: seq<Trip>, c: Criteria)
    ensures forall t :: multiset(Matches(catalog, c))[t] == (if MatchCriteres(t, c) then multiset(catalog)[t] else 0)
  {
    Seqs.FilterKeepsCounts(catalog, MatchPred(c));
  }

  /** `t` is what `max(ms, key=score_voyage)` returns: the trip at the first
      best score. */
  ghost predicate IsChoice(ms: seq<Trip>, c: Criteria, t: Trip) {
    exists k :: IsFirstMax(Scores(ms, c), k) && ms[k] == t
  }

  /** A lone score is its own first maximum. */
  lemma FirstMaxSingle(ss: seq<Score>)
    requires |ss| == 1
    ensures IsFirstMax(ss, 0)
  {
  }

  /** A lone trip is its own maximum. */
  lemma SingleChoice(ms: seq<Trip>, c: Criteria)
    requires |ms| == 1
    ensures IsChoice(ms, c, ms[0])
  {
    FirstMaxSingle(Scores(ms, c));
  }

  /** Among non-empty matches, `max(matches, key=score_voyage)`. */
  function Best(ms: seq<Trip>, c: Criteria): (t: Trip)
    requires |ms| > 0
    ensures t in ms
    ensures IsChoice(ms, c, t)
  {
    var k := FirstMax(Scores(ms, c));
    ms[k]
  }

  /** `trouver_voyage(criteres)` over a given catalog: None when nothing
      matches, the match itself when there is one, the first best-scored
      match otherwise. */
  function TrouverVoyage(catalog: seq<Trip>, c: Criteria): (r: Option<Trip>)
    ensures r.None? <==> forall t :: t in catalog ==> !MatchCriteres(t, c)
    ensures r.Some? ==> r.value in catalog && MatchCriteres(r.value, c)
    ensures r.Some? ==> IsChoice(Matches(catalog, c), c, r.value)
  {
    var ms := Matches(catalog, c);
    if |ms| == 0 then
      None
    else if |ms| == 1 then
      assert ms[0] in ms;
      SingleChoice(ms, c);
      Some(ms[0])
    else
      Some(Best(ms, c))
  }

  /** A single match is returned as is, without scoring. */
  lemma TrouverVoyageSingle(catalog: seq<Trip>, c: Criteria)
    requires |Matches(catalog, c)| == 1
    ensures TrouverVoyage(catalog, c) == Some(Matches(catalog, c)[0])
  {
  }

  /** No matching trip of the catalog scores higher than the one returned. */
  lemma TrouverVoyageMaximal(catalog: seq<Trip>, c: Criteria, t: Trip)
    requires t in catalog && MatchCriteres(t, c)
    ensures TrouverVoyage(catalog, c).Some?
    ensures !Beats(ScoreVoyage(c, t), ScoreVoyage(c, TrouverVoyage(catalog, c).value))
  {
    var ms := Matches(catalog, c);
    var ss := Scores(ms, c);
    assert t in ms;
    var j :| 0 <= j < |ms| && ms[j] == t;
    var r := TrouverVoyage(catalog, c);
    var k :| IsFirstMax(ss, k) && ms[k] == r.value;
    assert !Beats(ss[j], ss[k]);
  }

  // ---------------------------------------------------------------------
  // Tie-break and relevance
  // ---------------------------------------------------------------------

  /** When every match scores the same, the earliest match in the catalog is returned. */
  lemma TieGoesToEarliest(catalog: seq<Trip>, c: Criteria)
    requires |Matches(catalog, c)| > 0
    requires forall i :: 0 <= i < |Matches(catalog, c)| ==>
               ScoreVoyage(c, Matches(catalog, c)[i]) == ScoreVoyage(c, Matches(catalog, c)[0])
    ensures TrouverVoyage(catalog, c) == Some(Matches(catalog, c)[0])
  {
    var ms := Matches(catalog, c);
    var ss := Scores(ms, c);
    var r := TrouverVoyage(catalog, c);
    var k :| IsFirstMax(ss, k) && ms[k] == r.value;
    assert ss[k] == ss[0];
  }

  /** A match whose score beats every other match's is the one returned. */
  lemma StrictBestWins(catalog: seq<Trip>, c: Criteria, i: int)
    requires 0 <= i < |Matches(catalog, c)|
    requires forall j :: 0 <= j < |Matches(catalog, c)| && j != i ==>
               Beats(ScoreVoyage(c, Matches(catalog, c)[i]), ScoreVoyage(c, Matches(catalog, c)[j]))
    ensures TrouverVoyage(catalog, c) == Some(Matches(catalog, c)[i])
  {
    var ms := Matches(catalog, c);
    var ss := Scores(ms, c);
    var r := TrouverVoyage(catalog, c);
    var k :| IsFirstMax(ss, k) && ms[k] == r.value;
    assert !Beats(ss[i], ss[k]);
  }

  /** Without an accessibility request, trips with the same hits and the same
      relevant count score the same, whatever else they carry. */
  lemma EqualScores(c: Criteria, a: Trip, b: Trip)
    requires Hits(a, c, Keys) == Hits(b, c, Keys) && CountRelevant(a.labels) == CountRelevant(b.labels)
    requires c.Get(AccesHandicap) != Known(true)
    ensures ScoreVoyage(c, a) == ScoreVoyage(c, b)
  {
  }

  /** With equal hits and bonus, the trip advertising fewer relevant labels wins. */
  lemma FewerRelevantWins(c: Criteria, a: Trip, b: Trip)
    requires Hits(a, c, Keys) == Hits(b, c, Keys)
    requires a.accessibleHandicap == b.accessibleHandicap
    requires CountRelevant(a.labels) < CountRelevant(b.labels)
    ensures Beats(ScoreVoyage(c, a), ScoreVoyage(c, b))
  {
  }

  /** Each label adds one to the relevant count exactly when it is one of the
      five scored labels. */
  lemma {:induction false} CountRelevantSnoc(labels: seq<string>, l: string)
    ensures CountRelevant(labels + [l]) == CountRelevant(labels) + (if l in RelevantLabels then 1 else 0)
    decreases |labels|
  {
    if |labels| == 0 {
      assert labels + [l] == [l];
    } else {
      assert (labels + [l])[0] == labels[0];
      assert (labels + [l])[1..] == labels[1..] + [l];
      CountRelevantSnoc(labels[1..], l);
    }
  }

  /** "campagne" and the accented "détente" are not scored labels, so adding
      them to a trip leaves its relevant count unchanged. */
  lemma UnscoredLabels(labels: seq<string>)
    ensures CountRelevant(labels + ["campagne"]) == CountRelevant(labels)
    ensures CountRelevant(labels + ["détente"]) == CountRelevant(labels)
  {
    assert "campagne" !in RelevantLabels;
    assert "détente" !in RelevantLabels;
    CountRelevantSnoc(labels, "campagne");
    CountRelevantSnoc(labels, "détente");
  }

  // ---------------------------------------------------------------------
  // process_message
  // ---------------------------------------------------------------------

  /** What the structured-output extraction produced: a criteria record, or an
      exception. */
  datatype Extraction = Extracted(values: Criteria) | ExtractionFailed

  /** The branch that produced the reply; the generated text itself is opaque. */
  datatype Reply =
    | TechnicalProblem      // the fixed "problème technique" message
    | Clarification         // the fixed clarification prompt
    | Recommendation(trip: Trip)  // text generated about this trip
    | NoMatch               // the fixed "aucun voyage" prompt

  /** The state update returned by the node. */
  datatype Update = Update(reply: Reply, criteres: Criteria)

  /** One turn of `process_message` after the extraction call: reset, overlay,
      validate, match. The prior criteria contribute only their key set, which
      is always the six keys. */
  function ProcessMessage(prior: Criteria, extraction: Extraction): (u: Update)
    ensures extraction.ExtractionFailed? ==> u.reply == TechnicalProblem && u.criteres.AllUnknown()
    ensures extraction.Extracted? ==> forall k :: u.criteres.Get(k) == extraction.values.Get(k)
    ensures u.reply == Clarification <==> extraction.Extracted? && extraction.values.AllUnknown()
    ensures u.reply.Recommendation? <==> extraction.Extracted? && !extraction.values.AllUnknown()
                                         && TrouverVoyage(Voyages, extraction.values).Some?
    ensures u.reply.Recommendation? ==> u.reply.trip in Voyages && MatchCriteres(u.reply.trip, u.criteres)
    ensures u.reply.Recommendation? ==> TrouverVoyage(Voyages, u.criteres) == Some(u.reply.trip)
    ensures u.reply == NoMatch <==> extraction.Extracted? && !extraction.values.AllUnknown()
                                    && forall t :: t in Voyages ==> !MatchCriteres(t, extraction.values)
  {
    match extraction
    case ExtractionFailed => Update(TechnicalProblem, Empty)
    case Extracted(values) =>
      var nouveaux := Overlay(Empty, values);
      if nouveaux.AllUnknown() then
        Update(Clarification, nouveaux)
      else
        match TrouverVoyage(Voyages, nouveaux)
        case Some(v) => Update(Recommendation(v), nouveaux)
        case None => Update(NoMatch, nouveaux)
  }

  /** Reset law: nothing of the prior criteria survives a turn. */
  lemma NoInheritance(prior1: Criteria, prior2: Criteria, extraction: Extraction)
    ensures ProcessMessage(prior1, extraction) == ProcessMessage(prior2, extraction)
  {
  }

  /** An extraction with every value None leads to clarification, although
      those criteria would accept every trip: clarification pre-empts a match
      that would always succeed. */
  lemma ClarificationPreemptsMatching(prior: Criteria, values: Criteria)
    requires values.AllUnknown()
    ensures ProcessMessage(prior, Extracted(values)).reply == Clarification
    ensures forall t :: t in Voyages ==> MatchCriteres(t, values)
  {
  }
}
