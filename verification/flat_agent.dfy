/** The flat-flag catalog and its wildcard matcher `_match`. */
module FlatAgent {
  import opened Criterion
  import Seqs

  /** A catalog entry: a display name and a dictionary from criterion keys to
      booleans. A key may in general be absent from the dictionary. */
  datatype Trip = Trip(nom: string, flags: map<Key, bool>)

  const AllKeys: set<Key> := {Plage, Montagne, Ville, Sport, Detente, AccesHandicap}

  /** A catalog line binding all six keys. */
  function Entry(nom: string, plage: bool, montagne: bool, ville: bool, sport: bool, detente: bool, acces: bool): (t: Trip)
    ensures t.nom == nom && t.flags.Keys == AllKeys
    ensures t.flags[Plage] == plage && t.flags[Montagne] == montagne && t.flags[Ville] == ville
    ensures t.flags[Sport] == sport && t.flags[Detente] == detente && t.flags[AccesHandicap] == acces
  {
    Trip(nom, map[Plage := plage, Montagne := montagne, Ville := ville, Sport := sport, Detente := detente, AccesHandicap := acces])
  }

  const Voyages: seq<Trip> := [
    Entry("Randonnée camping en Lozère", false, true, false, true, false, false),
    Entry("5 étoiles à Chamonix option fondue", false, true, false, false, true, true),
    Entry("5 étoiles à Chamonix option ski", false, true, false, true, false, true),
    Entry("Palavas de paillotes en paillotes", true, false, true, false, true, true),
    Entry("5 étoiles en rase campagne", false, false, false, false, true, false)
  ]

  /** What one criterion value demands: nothing when None or when the trip has
      no such key, equality with the trip's flag otherwise. */
  predicate Agrees(v: Trip, k: Key, want: Tri) {
    want.Unknown? || k !in v.flags || v.flags[k] == want.value
  }

  /** The loop of `_match` over the keys `ks`, returning False at the first
      disagreement. */
  function MatchFrom(v: Trip, c: Criteria, ks: seq<Key>): (r: bool)
    ensures r <==> forall k :: k in ks ==> Agrees(v, k, c.Get(k))
    decreases |ks|
  {
    if |ks| == 0 then true
    else if !Agrees(v, ks[0], c.Get(ks[0])) then false
    else MatchFrom(v, c, ks[1..])
  }

  /** `_match(v, c)` */
  function Match(v: Trip, c: Criteria): (r: bool)
    ensures r <==> forall k :: Agrees(v, k, c.Get(k))
  {
    AllKeysListed();
    MatchFrom(v, c, Keys)
  }

  function MatchPred(c: Criteria): Trip -> bool {
    t => Match(t, c)
  }

  /** The catalog entries accepted by `_match`, in catalog order. */
  function Matching(catalog: seq<Trip>, c: Criteria): (ms: seq<Trip>)
    ensures forall t :: t in ms <==> t in catalog && Match(t, c)
    ensures Seqs.IsSubseq(ms, catalog)
  {
    Seqs.Filter(catalog, MatchPred(c))
  }

  /** Each accepted catalog entry is kept as often as the catalog lists it,
      and nothing else is kept. */
  lemma {:induction false} MatchingKeepsCounts(catalog: seq<Trip>, c: Criteria)
    ensures forall t :: multiset(Matching(catalog, c))[t] == (if Match(t, c) then multiset(catalog)[t] else 0)
  {
    Seqs.FilterKeepsCounts(catalog, MatchPred(c));
  }

  /** None criteria are skipped: with all six None every trip matches. */
  lemma MatchAllUnknown(v: Trip)
    ensures Match(v, Empty)
  {
  }

  /** A known criterion whose key the trip carries must equal the trip's flag. */
  lemma KnownPresentMustAgree(v: Trip, c: Criteria, k: Key)
    requires c.Get(k).Known? && k in v.flags
    ensures Match(v, c) ==> v.flags[k] == c.Get(k).value
  {
  }

  /** A criterion whose key the trip lacks imposes no constraint, whatever its value. */
  lemma AbsentKeyUnconstrained(v: Trip, c: Criteria, k: Key, want: Tri)
    requires k !in v.flags
    ensures Match(v, c.Set(k, want)) == Match(v, c)
  {
    var c' := c.Set(k, want);
    forall j ensures Agrees(v, j, c'.Get(j)) == Agrees(v, j, c.Get(j)) {
      if j != k {
        assert c'.Get(j) == c.Get(j);
      }
    }
  }

  /** Every catalog entry binds all six keys to concrete booleans. */
  lemma CatalogComplete()
    ensures |Voyages| == 5
    ensures forall i :: 0 <= i < |Voyages| ==> Voyages[i].flags.Keys == AllKeys
  {
  }

  /** `strong` keeps every constraint of `weak` and may add more. */
  ghost predicate Refines(weak: Criteria, strong: Criteria) {
    forall k :: weak.Get(k).Known? ==> strong.Get(k) == weak.Get(k)
  }

  /** `_match` is a conjunction: more constraints accept fewer trips. */
  lemma MatchAntitone(v: Trip, weak: Criteria, strong: Criteria)
    requires Refines(weak, strong)
    ensures Match(v, strong) ==> Match(v, weak)
  {
  }

  /** Turning one None criterion into a boolean keeps a subsequence of the
      matching trips. */
  lemma NarrowingShrinks(catalog: seq<Trip>, c: Criteria, k: Key, b: bool)
    requires c.Get(k).Unknown?
    ensures Seqs.IsSubseq(Matching(catalog, c.Set(k, Known(b))), Matching(catalog, c))
    ensures |Matching(catalog, c.Set(k, Known(b)))| <= |Matching(catalog, c)|
  {
    var strong := c.Set(k, Known(b));
    assert Refines(c, strong);
    forall t ensures MatchPred(strong)(t) ==> MatchPred(c)(t) {
      MatchAntitone(t, c, strong);
    }
    Seqs.FilterMonotone(catalog, MatchPred(strong), MatchPred(c));
    Seqs.SubseqLength(Matching(catalog, strong), Matching(catalog, c));
  }
}
