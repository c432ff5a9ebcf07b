/** The six tri-state travel criteria shared by every variant of the agent. */
module Criterion {

  /** A criterion value as Python's `Optional[bool]`: `None` means no constraint. */
  datatype Tri = Unknown | Known(value: bool)

  /** The six criterion keys: beach, mountain, city, sport, relaxation, disabled access. */
  datatype Key = Plage | Montagne | Ville | Sport | Detente | AccesHandicap

  /** The keys in the insertion order of the criteria dictionaries. */
  const Keys: seq<Key> := [Plage, Montagne, Ville, Sport, Detente, AccesHandicap]

  lemma AllKeysListed()
    ensures forall k: Key :: k in Keys
  {
    forall k: Key ensures k in Keys {
      match k
      case Plage => assert Keys[0] == k;
      case Montagne => assert Keys[1] == k;
      case Ville => assert Keys[2] == k;
      case Sport => assert Keys[3] == k;
      case Detente => assert Keys[4] == k;
      case AccesHandicap => assert Keys[5] == k;
    }
  }

  /** A criteria dictionary: exactly one tri-state value for each of the six keys. */
  datatype Criteria = Criteria(plage: Tri, montagne: Tri, ville: Tri, sport: Tri, detente: Tri, accesHandicap: Tri)
  {
    function Get(k: Key): Tri {
      match k
      case Plage => plage
      case Montagne => montagne
      case Ville => ville
      case Sport => sport
      case Detente => detente
      case AccesHandicap => accesHandicap
    }

    /** `criteres[k] = v` */
    function Set(k: Key, v: Tri): (r: Criteria)
      ensures r.Get(k) == v
      ensures forall j :: j != k ==> r.Get(j) == Get(j)
    {
      match k
      case Plage => this.(plage := v)
      case Montagne => this.(montagne := v)
      case Ville => this.(ville := v)
      case Sport => this.(sport := v)
      case Detente => this.(detente := v)
      case AccesHandicap => this.(accesHandicap := v)
    }

    predicate AllUnknown() {
      forall k :: Get(k).Unknown?
    }
  }

  /** The default criteria of a fresh state: every key bound to `None`. */
  const Empty: Criteria := Criteria(Unknown, Unknown, Unknown, Unknown, Unknown, Unknown)

  /** Two criteria dictionaries that agree on every key are equal. */
  lemma Extensionality(a: Criteria, b: Criteria)
    requires forall k :: a.Get(k) == b.Get(k)
    ensures a == b
  {
    assert a.Get(Plage) == b.Get(Plage);
    assert a.Get(Montagne) == b.Get(Montagne);
    assert a.Get(Ville) == b.Get(Ville);
    assert a.Get(Sport) == b.Get(Sport);
    assert a.Get(Detente) == b.Get(Detente);
    assert a.Get(AccesHandicap) == b.Get(AccesHandicap);
  }

  /** The loop `for k, v in extracted.items(): if v is not None: base[k] = v`,
      visiting the keys `ks` in order. */
  function OverlayKeys(base: Criteria, extracted: Criteria, ks: seq<Key>): (r: Criteria)
    ensures forall k :: r.Get(k) == (if k in ks && extracted.Get(k).Known? then extracted.Get(k) else base.Get(k))
    decreases |ks|
  {
    if |ks| == 0 then base
    else
      var k := ks[0];
      var next := if extracted.Get(k).Known? then base.Set(k, extracted.Get(k)) else base;
      OverlayKeys(next, extracted, ks[1..])
  }

  /** Every known extracted value overwrites the stored one; the others are kept. */
  function Overlay(base: Criteria, extracted: Criteria): (r: Criteria)
    ensures forall k :: r.Get(k) == (if extracted.Get(k).Known? then extracted.Get(k) else base.Get(k))
  {
    AllKeysListed();
    OverlayKeys(base, extracted, Keys)
  }

  /** Overlaying onto the all-`None` dictionary reproduces the extracted values exactly. */
  lemma OverlayOnEmpty(extracted: Criteria)
    ensures Overlay(Empty, extracted) == extracted
  {
    Extensionality(Overlay(Empty, extracted), extracted);
  }

  /** Applying the same extraction twice changes nothing after the first time. */
  lemma OverlayIdempotent(base: Criteria, extracted: Criteria)
    ensures Overlay(Overlay(base, extracted), extracted) == Overlay(base, extracted)
  {
    Extensionality(Overlay(Overlay(base, extracted), extracted), Overlay(base, extracted));
  }
}
