# BFI-2 scoring, response endpoints and persona agents

A model of the scoring core of a personality-research backend. Participants and
simulated "persona" agents answer the 60-item BFI-2 inventory on a 1..5 Likert
scale. The scorer turns the answers into Big Five domain scores and facet scores,
attaches an interpretation label to each domain and derives a summary map from
domain code to score. The web API normalises, validates and scores a response set
when a response record is created or updated. The persona agent cuts its system
prompt out of a persona file, parses each language-model reply into an answer,
fills its response map question by question and builds the record it saves.

Modules, one per program part:

- `Wrappers` (`wrappers.dfy`): `Option`, `Result` and `Outcome`.
- `Dicts` (`dicts.dfy`): Python dicts as association lists that keep insertion
  order. `Put` is `d[k] = v`: it replaces the value in place or appends the key.
  `FromItems` is a dict comprehension: a repeated key keeps its first position
  and its last value.
- `Hundredths` (`hundredths.dfy`): scores as integer hundredths, and
  `round(x, 2)` as round-half-to-even of the exact quotient.
- `Bfi2Model` (`bfi2_model.dfy`): the scoring configuration, `FacetScore` and
  `DomainScore`.
- `Bfi2Dict` (`bfi2_dict.dfy`): the JSON-like value that `to_dict` builds, with
  decoders that read every field back.
- `Bfi2Scorer` (`bfi2_scorer.dfy`): `BFI2Scorer` and `BFI2Result`. The two copies
  of `bfi2_scorer.py` differ only in logging, so one model stands for both.
- `Bfi2Api` (`bfi2_api.dfy`): `_normalize_responses`, `_validate_responses`,
  `create_response`, `update_response` and the stored `BFI2Response` row.
- `PersonaAgent` (`persona_agent.dfy`): both copies of `persona_agent.py`. They
  share extraction, parsing and the survey loop. They differ in `save_responses`:
  `SaveRecord` is the guarded copy in `backend/src/agents`, and
  `PretestSaveRecord` is the unguarded copy in `backend/scripts/agent_pretest`.

The imperative parts of the source are imperative here too:

- `InterpretScore` is the band scan with an early return.
- `ScoreDomain` and `Score` fill their dicts in a loop.
- `BFI2Result` is a class whose constructor runs `PostInit`.
- `BFI2Response.Update` assigns the fields of a stored row.
- `PersonaAgent.TakeSurvey` resets and fills the agent's `responses` field.

Each of these is proved against a specification function: `Interpretation`,
`DomainScoreOf`, `DomainsOf`, `SummaryOf`, `ApplyUpdate` and `SurveyResponses`.
The lemmas state what the source promises about those functions.

## Model

| member | source | states |
|---|---|---|
| Dicts.GetFound | backend/src/analysis/bfi2_scorer.py:164 | a lookup fails exactly when the key is absent; a found value is stored under that key |
| Dicts.Get | backend/src/analysis/bfi2_scorer.py:164 | `d.get(k)`: the value of the entry whose key is `k`, or none; `GetFound` states when it is found and that the pair is stored |
| Dicts.GetOr | backend/scripts/analysis/bfi2_scorer.py:169 | `d.get(k, default)`: the stored value, or the default for an absent key; see `AnswerOnScale` and `AnswerUnanswered` |
| Dicts.Put | backend/src/analysis/bfi2_scorer.py:212-213 | `d[k] = v`: replaces an existing key's value in place, else appends the pair; `PutKeys` and `PutGet` state the keys and lookups after it |
| Dicts.PutGet | backend/src/analysis/bfi2_scorer.py:212-213 | after `d[k] = v`, `k` reads `v` and every other key reads what it read before |
| Dicts.FromItemsSpec | backend/scripts/analysis/bfi2_scorer.py:50-53 | a comprehension yields distinct keys in order of first occurrence, and each key holds its last value |
| Dicts.FromItems | backend/src/analysis/bfi2_scorer.py:164-168 | a dict comprehension: the pairs assigned one after the other into an empty dict; `FromItemsSpec` states its keys and values |
| Dicts.FromItemsOfDistinct | backend/scripts/analysis/bfi2_scorer.py:169-173 | a comprehension over distinct keys keeps every pair, in order |
| Hundredths.RoundHalfEven | backend/src/analysis/bfi2_scorer.py:142 | the result is the nearest integer to the quotient; an exact half goes to the even neighbour |
| Hundredths.NearestTiesEvenUnique | backend/scripts/analysis/bfi2_scorer.py:147 | at most one integer meets that rounding rule, so the rounded value is well defined |
| Hundredths.Mean | backend/src/analysis/bfi2_scorer.py:138-142 | an empty list gives 0; otherwise the mean in hundredths, rounded half to even |
| Hundredths.MeanWithin | backend/scripts/analysis/bfi2_scorer.py:143-147 | the mean of values between lo and hi lies between 100·lo and 100·hi |
| Hundredths.MeanOfConstant | backend/src/analysis/bfi2_scorer.py:138-142 | the mean of a constant list is that constant |
| Hundredths.MeanExampleDown | backend/scripts/analysis/bfi2_scorer.py:147 | mean of [4, 4, 5] is 4.33 |
| Hundredths.MeanExampleTie | backend/src/analysis/bfi2_scorer.py:142 | mean of [4,4,4,4,3,2,2,2] (exactly 3.125) is 3.12, the even neighbour |
| Bfi2Scorer.ReverseScore | backend/src/analysis/bfi2_scorer.py:104-117 | reverse coding keeps the 1..5 scale, fixes exactly the neutral 3, and undoes itself |
| Bfi2Scorer.IsReversed | backend/src/analysis/bfi2_scorer.py:162 | membership in `set(config.get("reverseItems", []))`: an absent key reverses nothing |
| Bfi2Scorer.Answer | backend/src/analysis/bfi2_scorer.py:164 | `responses.get(item, 3)`; `AnswerOnScale` and `AnswerUnanswered` state its range and its default |
| Bfi2Scorer.RawResponses | backend/scripts/analysis/bfi2_scorer.py:169 | `{item: responses.get(item, 3) for item in items}`; `RawResponsesSpec` states its keys and values |
| Bfi2Scorer.AnswerOnScale | backend/src/analysis/bfi2_scorer.py:164 | with all responses on the scale, the answer read for any item (default 3) is on the scale |
| Bfi2Scorer.AnswerUnanswered | backend/scripts/analysis/bfi2_scorer.py:169 | an item not answered reads as the neutral 3 |
| Bfi2Scorer.RawResponsesSpec | backend/src/analysis/bfi2_scorer.py:164 | raw responses hold one entry per distinct item, in item order, each item's answer or 3 |
| Bfi2Scorer.ScoredResponses | backend/scripts/analysis/bfi2_scorer.py:170-173 | scored responses keep each raw entry in place with its reverse-coded value |
| Bfi2Scorer.ScoreItemsSpec | backend/src/analysis/bfi2_scorer.py:161-170 | raw and scored responses cover exactly the distinct items; scored values are the reverse-coded answers; the score is their mean, and 0 without items |
| Bfi2Scorer.ScoreItems | backend/scripts/analysis/bfi2_scorer.py:166-175 | raw responses, reverse-corrected responses and their mean, shared by facets and domains; `ScoreItemsSpec` and the lemmas below state what they hold |
| Bfi2Scorer.ScoreItemsOnScale | backend/scripts/analysis/bfi2_scorer.py:166-175 | a non-empty item list answered on the scale scores from 1.00 to 5.00 |
| Bfi2Scorer.ScoreItemsUnanswered | backend/src/analysis/bfi2_scorer.py:164-170 | with none of the items answered, the score is 3.00, whether or not items are reverse-coded |
| Bfi2Scorer.ScoreItemsDistinct | backend/scripts/analysis/bfi2_scorer.py:206-210 | over distinct items, the raw and scored entries follow the item list one for one |
| Bfi2Scorer.ScoreItemsOfThree | backend/src/analysis/bfi2_scorer.py:197-208 | three distinct items give three entries in order, and the score is the mean of their corrected values |
| Bfi2Scorer.ScoreItemsExampleAnswered | backend/scripts/analysis/bfi2_scorer.py:166-175 | items 2, 7, 12 with 7 reversed, answered 5, 1, 4: scored 5, 5, 4 and score 4.67 |
| Bfi2Scorer.ScoreItemsExampleDefaulted | backend/src/analysis/bfi2_scorer.py:161-170 | the same items with only item 2 answered: the others default to 3, and the score is 3.67 |
| Bfi2Scorer.ScoreFacet | backend/src/analysis/bfi2_scorer.py:144-178 | `score_facet`: the facet's name and items with the raw, scored and mean of `ScoreItems` over its own items and reverse items |
| Bfi2Scorer.Interpretation | backend/src/analysis/bfi2_scorer.py:119-136 | the label is either the fallback or the label of a band that contains the score |
| Bfi2Scorer.InterpretationFirstMatch | backend/scripts/analysis/bfi2_scorer.py:134-136 | the first band in declared order that contains the score decides the label |
| Bfi2Scorer.InterpretationNoMatch | backend/src/analysis/bfi2_scorer.py:133-136 | in no band: "Very High" from 5.00 up, "Average" below |
| Bfi2Scorer.InterpretationAtBandMin | backend/scripts/analysis/bfi2_scorer.py:135-136 | with disjoint bands, a band's lower bound gets that band's label (bands are half-open) |
| Bfi2Scorer.InterpretScore | backend/scripts/analysis/bfi2_scorer.py:124-141 | the scan with early return yields exactly `Interpretation` |
| Bfi2Scorer.DomainScoreIgnoresFacets | backend/src/analysis/bfi2_scorer.py:197-208 | a domain's score and label do not depend on its facets |
| Bfi2Scorer.DomainFacets | backend/src/analysis/bfi2_scorer.py:211-213 | one facet score per configured facet, in configuration order, each from `score_facet` |
| Bfi2Scorer.DomainScoreOf | backend/src/analysis/bfi2_scorer.py:198-224 | `score_domain`: the domain's own item scores, the label of its score and one `score_facet` per configured facet; `ScoreDomain` and the lemmas around it state its properties |
| Bfi2Scorer.DomainWithoutFacets | backend/scripts/analysis/bfi2_scorer.py:217 | a domain configured without facets has an empty facets dict |
| Bfi2Scorer.DomainNeutralWithoutResponses | backend/scripts/analysis/bfi2_scorer.py:185-230 | with no responses, a domain with items and each of its facets with items score 3.00 |
| Bfi2Scorer.ScoreDomain | backend/src/analysis/bfi2_scorer.py:180-224 | the facets loop and the interpretation scan yield exactly `DomainScoreOf` |
| Bfi2Scorer.DomainsFollowConfig | backend/scripts/analysis/bfi2_scorer.py:244-248 | with distinct domain names, the result has one domain per configured domain, in order |
| Bfi2Scorer.DomainsOf | backend/src/analysis/bfi2_scorer.py:237-242 | the `domains` dict of `score`: each configured domain assigned its `score_domain` result in configuration order; `DomainsFollowConfig` states its shape |
| Bfi2Scorer.SummaryOf | backend/src/analysis/bfi2_scorer.py:45-50 | `{domain.code: domain.score for domain in domains.values()}`; `SummaryKeys` and `SummaryDistinctCodes` state its keys and values |
| Bfi2Scorer.SummaryKeys | backend/src/analysis/bfi2_scorer.py:45-50 | the summary keys are the distinct domain codes; each holds the score of the last domain with that code |
| Bfi2Scorer.SummaryDistinctCodes | backend/scripts/analysis/bfi2_scorer.py:48-53 | with distinct codes, the summary maps each domain's code to its score, in domain order |
| Bfi2Scorer.BFI2Result.constructor | backend/src/analysis/bfi2_scorer.py:37-50 | the fields are as given except `summary`, which is replaced by the derived summary |
| Bfi2Scorer.BFI2Result.PostInit | backend/scripts/analysis/bfi2_scorer.py:48-53 | `summary` becomes the derived summary of `domains` |
| Bfi2Scorer.Score | backend/src/analysis/bfi2_scorer.py:226-248 | a fresh result with the persona, the number of responses supplied, the domains in configuration order and their summary |
| Bfi2Scorer.BFI2Result.ToDict | backend/src/analysis/bfi2_scorer.py:52-80 | `to_dict` of the result's current fields; `ResultRoundTrip` states that every field reads back |
| Bfi2Scorer.ScoredDict | backend/app/api/bfi2.py:81 | `scorer.score(responses, persona).to_dict()`; `Bfi2Api.CreateResponse` stores it, and `ApplyUpdateSpec` states that it decodes to the rescored result |
| Bfi2Dict.IntListRoundTrip | backend/src/analysis/bfi2_scorer.py:64 | an item list reads back from its serialised form |
| Bfi2Dict.IntDictRoundTrip | backend/scripts/analysis/bfi2_scorer.py:68-69 | a response dict reads back from its serialised form |
| Bfi2Dict.FacetFields | backend/src/analysis/bfi2_scorer.py:68-74 | each of a facet's five fields reads back under its key |
| Bfi2Dict.FacetRoundTrip | backend/scripts/analysis/bfi2_scorer.py:71-77 | a facet decodes back from its serialised form |
| Bfi2Dict.FacetEntriesRoundTrip | backend/src/analysis/bfi2_scorer.py:67-76 | a facets dict decodes back, entry by entry, in order |
| Bfi2Dict.DomainScalarFields | backend/scripts/analysis/bfi2_scorer.py:63-66 | a domain's name, code, score and interpretation read back under their keys |
| Bfi2Dict.DomainCollectionFields | backend/src/analysis/bfi2_scorer.py:64-67 | a domain's items, raw and scored responses and facets read back under their keys |
| Bfi2Dict.DomainRoundTrip | backend/scripts/analysis/bfi2_scorer.py:62-80 | a domain decodes back from its serialised form |
| Bfi2Dict.DomainEntriesRoundTrip | backend/src/analysis/bfi2_scorer.py:58-79 | a domains dict decodes back, entry by entry, in order |
| Bfi2Dict.ResultRoundTrip | backend/src/analysis/bfi2_scorer.py:52-80 | `to_dict` loses nothing: persona, question count, summary and domains decode back |
| Bfi2Dict.ResultValue | backend/scripts/analysis/bfi2_scorer.py:55-83 | the nested dict `to_dict` builds, keys in the source's order; `ResultRoundTrip` and the field lemmas above state that nothing is lost |
| Bfi2Api.NormalizeResponses | backend/app/api/bfi2.py:24-25 | the result has distinct keys, each holding its last value; a dict with distinct keys comes back unchanged |
| Bfi2Api.InvalidKeys | backend/app/api/bfi2.py:28-32 | a key is collected exactly when some entry under it is below 1 or above 5 |
| Bfi2Api.ValidateResponses | backend/app/api/bfi2.py:28-38 | passes exactly when every response is on the 1..5 scale (an empty map passes); otherwise a 422 with the fixed detail |
| Bfi2Api.NatToString | backend/app/api/bfi2.py:156 | decimal digits only, non-empty, no leading zero |
| Bfi2Api.NatToStringRoundTrip | backend/app/api/bfi2.py:156 | the digits of `n` read back as `n` |
| Bfi2Api.IntToString | backend/app/api/bfi2.py:156 | non-empty, and a leading minus exactly for negative ids |
| Bfi2Api.IntToStringRoundTrip | backend/app/api/bfi2.py:156 | `int(str(i)) == i` |
| Bfi2Api.IntToStringInjective | backend/app/api/bfi2.py:154-157 | different user ids give different personas |
| Bfi2Api.ApplyUpdate | backend/app/api/bfi2.py:148-160 | the fields after `update_response`, or its 422; `ApplyUpdateSpec` states when it fails and what each field becomes |
| Bfi2Api.ApplyUpdateSpec | backend/app/api/bfi2.py:148-160 | an update fails with 422 exactly when it sends off-scale responses; sent fields are replaced, with the scores recomputed and decodable; fields not sent are kept; an empty update changes nothing |
| Bfi2Api.BFI2Response.constructor | backend/app/api/bfi2.py:83-88 | the new row holds the given user id, survey type, responses and scores |
| Bfi2Api.BFI2Response.Update | backend/app/api/bfi2.py:148-160 | on failure the row is unchanged and the error is returned; otherwise the row holds `ApplyUpdate`'s fields |
| Bfi2Api.CreateResponse | backend/app/api/bfi2.py:65-92 | 404 without the user; 422 for off-scale responses; otherwise a fresh row with the normalised responses scored under the participant id |
| Bfi2Api.UpdateResponse | backend/app/api/bfi2.py:134-165 | 404 without the record; otherwise the outcome and new fields of `ApplyUpdate` |
| PersonaAgent.Find | backend/src/agents/persona_agent.py:67-73 | `find` returns the lowest index from `start` where the pattern occurs, or none when it occurs nowhere from `start` |
| PersonaAgent.FindFirst | backend/scripts/agent_pretest/persona_agent.py:85-92 | the first occurrence from `start` is what `find` returns |
| PersonaAgent.ExtractSystemPrompt | backend/scripts/agent_pretest/persona_agent.py:82-97 | without the start marker, the whole file content is the prompt |
| PersonaAgent.ExtractWithoutEnd | backend/src/agents/persona_agent.py:72-76 | start marker without an end marker after it: everything after the start marker |
| PersonaAgent.ExtractBetween | backend/scripts/agent_pretest/persona_agent.py:91-97 | both markers: the text between the first start marker and the first end marker after it, which holds no end marker |
| PersonaAgent.Strip | backend/src/agents/persona_agent.py:128 | the stripped reply is no longer than the reply and neither starts nor ends with whitespace |
| PersonaAgent.TrimStart | backend/src/agents/persona_agent.py:128 | the leading-whitespace half of `strip`: removes exactly a whitespace prefix, and what remains starts with a non-whitespace character |
| PersonaAgent.TrimEnd | backend/scripts/agent_pretest/persona_agent.py:147 | the trailing-whitespace half of `strip`: removes exactly a whitespace suffix, and what remains ends with a non-whitespace character |
| PersonaAgent.StripStartsAt | backend/scripts/agent_pretest/persona_agent.py:147 | the stripped reply starts with the first non-whitespace character |
| PersonaAgent.StripBlank | backend/src/agents/persona_agent.py:128 | an all-whitespace reply strips to the empty string |
| PersonaAgent.ParseAnswer | backend/scripts/agent_pretest/persona_agent.py:147-164 | every reply yields an answer between 1 and 5 |
| PersonaAgent.ParseAnswerFirstChar | backend/src/agents/persona_agent.py:128-138 | the first non-whitespace character decides: a digit 1..5 is the answer, anything else gives 3 |
| PersonaAgent.ParseAnswerBlank | backend/scripts/agent_pretest/persona_agent.py:158-162 | an empty or all-whitespace reply gives the neutral 3 |
| PersonaAgent.SurveyResponsesShape | backend/scripts/agent_pretest/persona_agent.py:185-187 | the map has one entry per distinct question id, in question order, and every answer is on the scale |
| PersonaAgent.SurveyResponses | backend/src/agents/persona_agent.py:150-169 | the response map `take_survey` leaves: each question's parsed answer assigned under its id, in order; the three survey lemmas state its keys and values |
| PersonaAgent.SurveyLastAnswerWins | backend/src/agents/persona_agent.py:157-159 | a question id asked more than once keeps the answer to its last asking |
| PersonaAgent.SurveyDistinctIds | backend/scripts/agent_pretest/persona_agent.py:176-187 | with distinct ids, the map lists every question with its parsed answer, in order |
| PersonaAgent.PersonaAgent.constructor | backend/scripts/agent_pretest/persona_agent.py:35-63 | the agent's name, model and questions are as given, its prompt is the extracted one, and its responses are empty |
| PersonaAgent.PersonaAgent.TakeSurvey | backend/src/agents/persona_agent.py:140-169 | the loop leaves `SurveyResponses` of the questions and replies in the field, and returns that same map |
| PersonaAgent.PersonaAgent.SaveRecord | backend/src/agents/persona_agent.py:171-194 | refused with the fixed message exactly when there are no responses; otherwise the record carries persona, model, the response count and the responses |
| PersonaAgent.PersonaAgent.PretestSaveRecord | backend/scripts/agent_pretest/persona_agent.py:206-217 | the record carries persona, model and the responses, and has no `total_questions` field |

## Left out

- File I/O: reading `scoring.json`, the persona files and the questions files, writing results, and `score_from_file`. The configuration, file contents and questions are parameters.
- Output: `print_results`, `main`, the verbose progress printing and all logging.
- The language-model call in `answer_question`: the reply to each question is a parameter, one per question. A reply whose content is `None` (an `AttributeError` in the source) is not modelled.
- The database, routing, `commit` and `refresh`. The user and record lookups are given as `Option`s.
- The read-only endpoints of the API module, which do no computation.
- Hundredths.Mean: floating point is not modelled. Scores are exact hundredths rounded half to even. Python's `round` works on the binary value, so a tie whose quotient has a factor of 5 in its denominator (for example 121/40) may round the other way in the source.
- Bfi2Scorer.Interpretation: the band bounds are hundredths, so a configured bound with more than two decimals is not representable.
- PersonaAgent.Digit: Python's `int` also accepts non-ASCII decimal digits (such as Arabic-Indic digits) as the first character. The model accepts only `0`..`9`.
- PersonaAgent.Strip: does not state that the result is a contiguous slice of the reply. The slice property is stated only for the first character (`StripStartsAt`) and for blank replies (`StripBlank`).
- The default persona `"unknown"` and the default model are defaults of the callers. The model takes both as arguments.
- The `max_length=32` limit on `survey_type` and the `"pre"` default belong to request validation before the handlers run.
- An explicit `null` sent for a field of an update is not modelled. The update payload has a field present exactly when it was sent with a value.
- Bfi2Api.BFI2Response.Update: the source assigns `responses` before scoring. Scoring cannot fail here, so whether the responses are assigned before or after scoring makes no difference in the model.
- `TakeSurvey` returns `self.responses`, which the source later aliases. Maps here are values, so aliasing is not modelled.
- The configuration errors of the source are not modelled. A missing `code` or `items` key and a band missing `min`, `max` or `label` raise `KeyError`, and `"reverseItems": null` raises `TypeError` in `set(None)`. The `ScoringConfig` datatype has no value for any of these, so the model cannot express them.
- Bfi2Scorer.Score: requires the responses to have distinct keys, because the source receives a Python dict. An association list with a repeated key is not a valid input. Every API caller passes `NormalizeResponses` output, which has distinct keys.
- JSON serialisation turning integer keys into strings is not modelled. `Bfi2Dict` keeps keys as integers.
- The configuration's documented invariants (facets partition their domain's items; reverse items are a subset of items) are not checked by the code and are not assumed here. The domain score is computed from the domain's own item list, as in the code.
