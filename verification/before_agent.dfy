/** The earlier single-node agent: the same flat catalog and `_match`, but the
    criteria accumulate across turns and every matching trip is proposed. */
module BeforeAgent {
  import opened Criterion
  import Seqs
  import FlatAgent

  type Trip = FlatAgent.Trip

  /** This file's own copy of the flat catalog. */
  const Voyages: seq<Trip> := [
    FlatAgent.Entry("Randonnée camping en Lozère", false, true, false, true, false, false),
    FlatAgent.Entry("5 étoiles à Chamonix option fondue", false, true, false, false, true, true),
    FlatAgent.Entry("5 étoiles à Chamonix option ski", false, true, false, true, false, true),
    FlatAgent.Entry("Palavas de paillotes en paillotes", true, false, true, false, true, true),
    FlatAgent.Entry("5 étoiles en rase campagne", false, false, false, false, true, false)
  ]

  /** This file's own copy of `_match`: every listed criterion that is known
      and present on the trip equals the trip's flag. */
  predicate Match(v: Trip, c: Criteria) {
    forall i :: 0 <= i < |Keys| ==>
      var k := Keys[i];
      c.Get(k).Unknown? || k !in v.flags || v.flags[k] == c.Get(k).value
  }

  /** The duplicated matcher decides exactly as the flat one. */
  lemma MatchIsFlatMatch(v: Trip, c: Criteria)
    ensures Match(v, c) <==> FlatAgent.Match(v, c)
  {
    AllKeysListed();
    if Match(v, c) {
      forall k ensures FlatAgent.Agrees(v, k, c.Get(k)) {
        assert k in Keys;
        var i :| 0 <= i < |Keys| && Keys[i] == k;
      }
    }
  }

  /** The duplicated catalog is the flat catalog, entry for entry and in order. */
  lemma CatalogIsFlatCatalog()
    ensures Voyages == FlatAgent.Voyages
  {
  }

  function MatchPred(c: Criteria): Trip -> bool {
    t => Match(t, c)
  }

  /** `voyages_proposes`: the entries of a catalog accepted by `_match`, in catalog order. */
  function Proposals(catalog: seq<Trip>, c: Criteria): (ps: seq<Trip>)
    ensures forall t :: t in ps <==> t in catalog && Match(t, c)
    ensures Seqs.IsSubseq(ps, catalog)
  {
    Seqs.Filter(catalog, MatchPred(c))
  }

  /** Each accepted catalog entry is kept as often as the catalog lists it,
      and nothing else is kept. */
  lemma {:induction false} ProposalsKeepsCounts(catalog: seq<Trip>, c: Criteria)
    ensures forall t :: multiset(Proposals(catalog, c))[t] == (if Match(t, c) then multiset(catalog)[t] else 0)
  {
    Seqs.FilterKeepsCounts(catalog, MatchPred(c));
  }

  /** Over any catalog, the duplicated matcher proposes exactly the trips the
      flat matcher keeps, in the same order. */
  lemma ProposalsAreFlatMatches(catalog: seq<Trip>, c: Criteria)
    ensures Proposals(catalog, c) == FlatAgent.Matching(catalog, c)
  {
    forall v | v in catalog ensures MatchPred(c)(v) == FlatAgent.MatchPred(c)(v) {
      MatchIsFlatMatch(v, c);
    }
    Seqs.FilterCongruent(catalog, MatchPred(c), FlatAgent.MatchPred(c));
  }

  /** The proposal loop over a catalog: scan it and append every accepted entry. */
  method ProposeVoyages(catalog: seq<Trip>, c: Criteria) returns (matches: seq<Trip>)
    ensures matches == Proposals(catalog, c)
  {
    matches := [];
    var i := 0;
    while i < |catalog|
      invariant 0 <= i <= |catalog|
      invariant matches == Seqs.Filter(catalog[..i], MatchPred(c))
    {
      var voyage := catalog[i];
      Seqs.FilterSnoc(catalog[..i], voyage, MatchPred(c));
      assert catalog[..i + 1] == catalog[..i] + [voyage];
      if Match(voyage, c) {
        matches := matches + [voyage];
      }
      i := i + 1;
    }
    assert catalog[..i] == catalog;
  }

  /** Outcome of `Criteres.parse_raw` on the extraction reply. */
  datatype Parse = Parsed(values: Criteria) | Unparseable

  /** Which response prompt is sent to the generator; its reply is opaque. */
  datatype Prompt = PresentOptions | SuggestAlternatives

  /** The state after one turn. */
  datatype Turn = Turn(criteres: Criteria, voyagesProposes: seq<Trip>, prompt: Prompt)

  /** The criteria update of a turn: no reset; an empty message skips the
      extraction, a parse failure is swallowed, and otherwise every known
      extracted value overwrites the stored one. */
  function UpdateCriteria(message: string, prior: Criteria, parse: Parse): (r: Criteria)
    ensures message == "" ==> r == prior
    ensures parse.Unparseable? ==> r == prior
    ensures message != "" && parse.Parsed? ==>
              forall k :: r.Get(k) == (if parse.values.Get(k).Known? then parse.values.Get(k) else prior.Get(k))
  {
    if message == "" then prior
    else match parse
      case Unparseable => prior
      case Parsed(values) => Overlay(prior, values)
  }

  /** A repeated extraction adds nothing to the criteria. */
  lemma UpdateIdempotent(message: string, prior: Criteria, parse: Parse)
    ensures UpdateCriteria(message, UpdateCriteria(message, prior, parse), parse) == UpdateCriteria(message, prior, parse)
  {
    if message != "" && parse.Parsed? {
      OverlayIdempotent(prior, parse.values);
    }
  }

  /** One turn of `process_message`, once the two model calls are replaced by
      their outcomes. */
  function ProcessMessage(message: string, prior: Criteria, parse: Parse): (t: Turn)
    ensures t.criteres == UpdateCriteria(message, prior, parse)
    ensures forall v :: v in t.voyagesProposes <==> v in Voyages && Match(v, t.criteres)
    ensures Seqs.IsSubseq(t.voyagesProposes, Voyages)
    ensures t.prompt == PresentOptions <==> exists v :: v in Voyages && Match(v, t.criteres)
  {
    var criteres := UpdateCriteria(message, prior, parse);
    var proposes := Proposals(Voyages, criteres);
    assert |proposes| > 0 ==> proposes[0] in proposes;
    Turn(criteres, proposes, if |proposes| > 0 then PresentOptions else SuggestAlternatives)
  }

  /** Criteria stated in one turn persist into the next unless re-extracted. */
  lemma CriteriaAccumulate(m1: string, m2: string, prior: Criteria, e1: Criteria, e2: Criteria, k: Key)
    requires m1 != "" && m2 != ""
    requires e1.Get(k).Known? && e2.Get(k).Unknown?
    ensures ProcessMessage(m2, ProcessMessage(m1, prior, Parsed(e1)).criteres, Parsed(e2)).criteres.Get(k) == e1.Get(k)
  {
  }
}
