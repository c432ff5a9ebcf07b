# Travel-agent decision logic in Dafny

This project models the decision logic of a French travel-recommendation chat
agent. It covers four variants of the agent found in the repository. The
model does not cover the language-model calls, only what the agent does with
their results. What it covers:

- the criteria record (six keys, each true, false or unknown);
- the matchers that check a trip against the criteria;
- the scored choice of one trip;
- the per-turn update of the criteria;
- the matching diagnostic script.

Modules:

- `Options`, `Seqs`: an option type, and an order-preserving filter with the
  subsequence relation and the lemmas about it.
- `Criterion`: the `Criteres` record (`plage`, `montagne`, `ville`, `sport`,
  `detente`, `acces_handicap`). Each value is `Unknown` (Python `None`) or
  `Known(b)`. Also the overlay "every non-None extracted value overwrites the
  stored one".
- `LabelAgent` (`agent/graph.py`) covers:
  - the label catalog;
  - `match_criteres`, where a true criterion needs its label and a false one
    forbids it, and accessibility is compared with the trip's flag, missing
    counting as `False`;
  - `trouver_voyage` with `score_voyage`, a triple compared lexicographically
    where Python's `max` keeps the first best;
  - the node `process_message`: technical-problem reply on extraction failure,
    mandatory reset, overlay, clarification when everything is `None`,
    recommendation or no-match.
- `LabelScenarios`: what the label agent chooses on its catalog for three
  requests (beach and relaxation; mountain only; relaxation only).
- `FlatAgent` (`src/agent/graph.py`): the flat-flag catalog and `_match`. A
  known criterion must equal the trip's flag, but only if the trip has that
  key.
- `BeforeAgent` (`src/agent/graph_before.py`) covers:
  - its duplicated catalog and `_match`, both proved equal to the flat ones;
  - the proposal loop, as a method with a loop invariant;
  - the accumulating turn: no reset, an empty message skips extraction, a
    parse failure is swallowed, and all matching trips are proposed.
- `MatchingScript` (`agent/test_matching_script.py`): `test_matching` as a pure
  report (one line per trip with its blockers, the matches and the summary),
  plus the ten scenarios of the script. Its import `match_voyage` names no
  existing function, so it is bound to the flat `_match` over the flat catalog.

Notes on the code:

- **Relevant-label penalty.** `score_voyage` counts only the five values of
  its label map. So the accented "détente" and "campagne" are not counted,
  although `match_criteres` accepts "détente" for relaxation.
- **Extraction failure.** On an extraction error, `agent/graph.py` returns a
  fixed technical-problem reply and all-`None` criteria, and does no matching.
  On a parse failure, `src/agent/graph_before.py` keeps the stored criteria;
  an exception from its model call propagates.
- **No normalization.** None of the modelled files overrides extracted
  criteria heuristically or makes criteria exclusive of each other. Criteria
  are used as extracted. So scenario test 7 (city only, with beach and
  mountain false) matches nothing, because the only city trip, Palavas, is
  also a beach trip.

## Model

| member | source | states |
|---|---|---|
| Criterion.Overlay | agent/graph.py:402-405 | after the overlay, each key holds the extracted value when that value is not None, and the stored value otherwise |
| Criterion.OverlayOnEmpty | agent/graph.py:399-405 | after the reset, the overlay gives exactly the extracted criteria |
| Criterion.OverlayIdempotent | src/agent/graph_before.py:197-199 | applying the same extraction a second time changes nothing |
| Seqs.Filter | agent/graph.py:253-256 | the accumulation loop keeps exactly the accepted elements, in order, as a subsequence no longer than its input |
| Seqs.FilterKeepsCounts | agent/graph.py:253-256 | the accumulation loop keeps each accepted element as many times as the input holds it, and no rejected element |
| LabelAgent.MatchCriteres | agent/graph.py:211-243 | a trip matches iff every criterion is None or satisfied: a label criterion by having (True) or lacking (False) one of its labels, accessibility by equal flags |
| LabelAgent.MatchAllUnknown | agent/graph.py:216-218 | with every criterion None, every trip matches |
| LabelAgent.LabelCriterion | agent/graph.py:236-241 | in a matching trip, each known label criterion equals whether the trip carries the label |
| LabelAgent.LabelMismatchRejects | agent/graph.py:236-241 | one violated label criterion rejects the trip, whatever the other criteria say |
| LabelAgent.DetenteEitherSpelling | agent/graph.py:231-234 | the relaxation criterion is witnessed by "detente" or by "détente" |
| LabelAgent.AccessCriterion | agent/graph.py:220-223 | a known accessibility criterion must equal the trip's flag, and a trip without the flag fails a True accessibility request |
| LabelAgent.ScoreVoyage | agent/graph.py:266-296 | the hit count is between 0 and 6, the relevance term is between minus the label count and 0, and the bonus is 1 exactly when accessibility is requested and the trip offers it |
| LabelAgent.ScoreVoyageCounts | agent/graph.py:278-287 | the hit count is the number of criteria that are True and whose label the trip carries; the relevance term is minus the number of the trip's labels that are scored labels, repeats included |
| LabelAgent.Hits | agent/graph.py:278-283 | the number of criteria counted is at most the number of criteria examined; its exact value is stated by `LabelAgent.HitsCountsHitKeys` |
| LabelAgent.AnyIn | agent/graph.py:234 | true exactly when some required label is among the trip's labels |
| LabelAgent.Matches | agent/graph.py:253-256 | the matches are exactly the catalog trips that pass `match_criteres`, as a subsequence of the catalog |
| LabelAgent.MatchesKeepsCounts | agent/graph.py:253-256 | each matching trip appears among the matches as often as in the catalog, and no other trip appears |
| LabelAgent.CountRelevant | agent/graph.py:285-287 | the relevant count is at most the label count, and it is zero exactly when no label is one of the five scored labels |
| LabelAgent.FirstMax | agent/graph.py:298-299 | `max` returns an index whose score no other beats and which strictly beats every earlier score |
| LabelAgent.FirstMaxUnique | agent/graph.py:299 | the first maximum is unique |
| LabelAgent.Best | agent/graph.py:298-300 | the best trip is one of the matches and sits at the first maximal score |
| LabelAgent.TrouverVoyage | agent/graph.py:247-300 | None iff no catalog trip matches; otherwise a matching catalog trip at the first maximal score among the matches |
| LabelAgent.TrouverVoyageSingle | agent/graph.py:261-263 | a single match is returned as is |
| LabelAgent.TrouverVoyageMaximal | agent/graph.py:298-300 | no matching catalog trip scores strictly higher than the returned one |
| LabelAgent.TieGoesToEarliest | agent/graph.py:298-299 | when all matches score equally, the earliest match in catalog order is returned |
| LabelAgent.StrictBestWins | agent/graph.py:298-300 | a match whose score beats every other match's score is the one returned |
| LabelAgent.EqualScores | agent/graph.py:266-296 | without an accessibility request, trips with equal hits and equal relevant counts score the same |
| LabelAgent.FewerRelevantWins | agent/graph.py:294-296 | with equal hits and equal accessibility, the trip with fewer relevant labels wins |
| LabelAgent.HitsCountsHitKeys | agent/graph.py:278-283 | the hit count equals the number of keys that are true in the criteria and whose label the trip carries |
| LabelAgent.CountRelevantIsComprehension | agent/graph.py:285-287 | the relevant count equals the length of the list of the trip's labels that are scored labels, duplicates included |
| LabelAgent.CountRelevantSnoc | agent/graph.py:286-287 | a label adds one to the relevant count exactly when it is a scored label |
| LabelAgent.UnscoredLabels | agent/graph.py:270-276 | "campagne" and "détente" do not change the relevant count |
| LabelAgent.ProcessMessage | agent/graph.py:353-430 | extraction failure gives the technical reply and all-None criteria; otherwise the criteria are exactly the extracted ones; the reply is clarification iff all are None, a recommendation iff a catalog trip matches, and then the trip `trouver_voyage` returns; no-match otherwise |
| LabelAgent.NoInheritance | agent/graph.py:399-400 | the outcome of a turn does not depend on the prior criteria |
| LabelAgent.ClarificationPreemptsMatching | agent/graph.py:407-413 | all-None extraction leads to clarification although it would match every trip |
| LabelScenarios.RelevantCounts | agent/graph.py:117-142 | the relevant counts of the five catalog trips are 2, 2, 3, 1 and 2, because "campagne" is not counted |
| LabelScenarios.BeachRelaxPicksPalavas | agent/graph.py:247-263 | beach and relaxation: Palavas is the only match and is returned |
| LabelScenarios.BeachRelaxTurn | agent/graph.py:399-430 | a turn extracting beach and relaxation recommends Palavas and stores exactly those criteria, whatever the prior criteria |
| LabelScenarios.MountainTieGoesToSki | agent/graph.py:247-300 | mountain only: ski, fondue and Lozère match with equal scores, and the ski trip, first in the catalog, is returned |
| LabelScenarios.RelaxPicksRaseCampagne | agent/graph.py:247-300 | relaxation only: fondue, Palavas and rase campagne match with one hit each, and rase campagne wins with the fewest relevant labels |
| LabelScenarios.FirstOfThreeTies | agent/graph.py:298-299 | of three matches with one score, the first is returned |
| LabelScenarios.LastOfThreeWins | agent/graph.py:298-299 | of three matches, the last is returned when it beats the other two |
| FlatAgent.Entry | src/agent/graph.py:55-61 | each catalog line binds all six keys to the given booleans |
| FlatAgent.Match | src/agent/graph.py:85-91 | a trip matches iff every criterion is None, absent from the trip, or equal to its flag |
| FlatAgent.Matching | agent/test_matching_script.py:48-55 | the matching trips are exactly the accepted catalog entries, as a subsequence of the catalog |
| FlatAgent.MatchingKeepsCounts | agent/test_matching_script.py:48-55 | each accepted entry appears among the matches as often as in the catalog, and no other entry appears |
| FlatAgent.MatchAllUnknown | src/agent/graph.py:86-88 | with every criterion None, every trip matches |
| FlatAgent.KnownPresentMustAgree | src/agent/graph.py:89-90 | a known criterion whose key the trip carries must equal the trip's flag |
| FlatAgent.AbsentKeyUnconstrained | src/agent/graph.py:89 | a criterion whose key the trip lacks has no effect, whatever its value |
| FlatAgent.CatalogComplete | src/agent/graph.py:55-61 | every entry of the five-trip catalog binds all six keys |
| FlatAgent.MatchAntitone | src/agent/graph.py:85-91 | adding constraints never turns a rejection into a match |
| FlatAgent.NarrowingShrinks | src/agent/graph.py:85-91 | fixing one None criterion keeps a subsequence of the matches, no longer than before |
| BeforeAgent.MatchIsFlatMatch | src/agent/graph_before.py:156-162 | the duplicated `_match` decides exactly as the flat one |
| BeforeAgent.CatalogIsFlatCatalog | src/agent/graph_before.py:83-89 | the duplicated catalog equals the flat catalog, in order |
| BeforeAgent.ProposalsAreFlatMatches | src/agent/graph_before.py:205-208 | on any catalog, the proposals of the duplicated matcher are exactly the matches of the flat matcher, in the same order |
| BeforeAgent.Proposals | src/agent/graph_before.py:205-211 | the proposals are exactly the matching trips of the catalog, as a subsequence of it |
| BeforeAgent.ProposalsKeepsCounts | src/agent/graph_before.py:205-211 | each matching trip is proposed as often as the catalog lists it, and no other trip is proposed |
| BeforeAgent.ProposeVoyages | src/agent/graph_before.py:205-208 | the scanning loop returns exactly the proposals: every matching trip of the catalog, in catalog order |
| BeforeAgent.UpdateCriteria | src/agent/graph_before.py:178-202 | an empty message or an unparseable reply keeps the criteria; otherwise every non-None extracted value overwrites the stored one |
| BeforeAgent.UpdateIdempotent | src/agent/graph_before.py:193-202 | repeating the same message and extraction adds nothing |
| BeforeAgent.ProcessMessage | src/agent/graph_before.py:171-235 | the new criteria are the update; the proposals are exactly the matching trips; the options prompt is chosen iff some trip matches |
| BeforeAgent.CriteriaAccumulate | src/agent/graph_before.py:197-199 | a criterion set in one turn survives a later turn that does not mention it |
| MatchingScript.BlockersFrom | agent/test_matching_script.py:60-66 | each blocker is a known criterion present on the trip with a differing value; every such criterion is listed; the list is empty iff the trip agrees on these keys |
| MatchingScript.Blockers | agent/test_matching_script.py:59-66 | the blockers of a trip are exactly its disagreeing criteria, and there are none iff the trip matches |
| MatchingScript.BlockersCons | agent/test_matching_script.py:61-66 | the first key contributes its blocker, if any, ahead of those of later keys |
| MatchingScript.Diagnostic | agent/test_matching_script.py:49-69 | a line is a match iff the trip matches; a non-match shows exactly the trip's blockers, of which there is at least one |
| MatchingScript.Summarize | agent/test_matching_script.py:71-77 | the summary counts the matches out of the catalog size and proposes the first matching trip, if any |
| MatchingScript.TestMatching | agent/test_matching_script.py:24-81 | one line per catalog trip, each non-matching line showing exactly that trip's blockers; the returned matches are the matching trips in order; the summary counts them and proposes the first |
| MatchingScript.Test1 | agent/test_matching_script.py:90-102 | beach only: only Palavas matches |
| MatchingScript.Test2 | agent/test_matching_script.py:105-117 | mountain without beach or city: Lozère, fondue and ski match |
| MatchingScript.Test3 | agent/test_matching_script.py:120-132 | sport and mountain without relaxation: Lozère and ski match |
| MatchingScript.Test4 | agent/test_matching_script.py:135-147 | relaxation with accessibility and no sport: fondue and Palavas match |
| MatchingScript.Test5 | agent/test_matching_script.py:150-162 | beach and city without mountain: only Palavas matches |
| MatchingScript.Test6 | agent/test_matching_script.py:165-177 | beach, mountain and sport together: nothing matches |
| MatchingScript.Test7 | agent/test_matching_script.py:180-192 | city only, beach and mountain false: nothing matches |
| MatchingScript.Test8 | agent/test_matching_script.py:195-207 | all criteria None: every trip of any catalog matches in order, and the first is proposed |
| MatchingScript.Test9 | agent/test_matching_script.py:210-222 | countryside with relaxation: only the rase-campagne trip matches |
| MatchingScript.Test10 | agent/test_matching_script.py:225-237 | sport without relaxation: Lozère and ski match |

## Left out

- Language-model calls: extraction in both agents and reply generation. Their
  outcomes are parameters: `Extraction`, `Parse`, and the opaque `Reply` and
  `Prompt` tags. Prompt texts and generated text are not modelled.
- `generer_reponse_llm` in `agent/graph.py`: the generated text and its
  fallback template on a generation error both describe the recommended
  trip, so both are the one tag `Recommendation(trip)`.
- Logging, tracing decorators, `print` output, asynchrony and the graph
  wiring: these do not change any decision.
- The broken module-level code: `src/agent/graph_before.py:122` uses an
  undefined `model`, and `src/agent/graph.py:101` calls a `build_graph` that
  the file does not define. So neither module can be imported as written. The
  model takes each turn function on its own. The commented-out code at the top
  of `src/agent/graph_before.py` is not part of any turn either.
- An exception raised by the model call itself in `src/agent/graph_before.py`
  (outside the `try`): it propagates to the caller and is not a decision of the
  agent.
- The `State` defaults: the initial criteria are the all-unknown record
  `Criterion.Empty`.
- Intent dispatch (greeting, practical question, off-topic), the heuristic
  override, exclusivity and the confirmation shortcut: none of the modelled
  files implements them.
- MatchingScript: the printed wording of the report (names, emojis, blocker
  text) is not modelled. Lines are `Matched` or `Blocked` with `Blocker`
  values. `print_voyage_details` only prints a trip's fields and is not
  modelled. The printing done by `main` is not modelled; its ten scenarios are
  `MatchingScript.Test1` to `MatchingScript.Test10`.
