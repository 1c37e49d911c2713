/**
 * The data the BFI-2 scorer consumes and produces.
 *
 * The scoring configuration is the parsed scoring document: per domain its
 * `code`, `items`, the optional `reverseItems` and the optional `facets`
 * (`.get` with a default in the scorer), and the interpretation ranges.
 * Scores are integer hundredths (see module Hundredths); so are the bounds
 * of the interpretation ranges.
 */
module Bfi2Model {
  import opened Wrappers
  import opened Dicts

  type ItemId = int

  /** Item id to response, as supplied by the caller. */
  type Responses = Dict<ItemId, int>

  /** Every supplied response is on the 1..5 Likert scale. */
  predicate OnScale(responses: Responses) {
    forall i :: 0 <= i < |responses| ==> 1 <= responses[i].1 <= 5
  }

  datatype FacetConfig = FacetConfig(items: seq<ItemId>, reverseItems: Option<seq<ItemId>>)

  datatype DomainConfig = DomainConfig(
    code: string,
    items: seq<ItemId>,
    reverseItems: Option<seq<ItemId>>,
    facets: Option<Dict<string, FacetConfig>>)

  /** One interpretation band `[min, max)`, bounds in hundredths. */
  datatype RangeInfo = RangeInfo(min: int, max: int, labelText: string)

  datatype ScoringConfig = ScoringConfig(
    domains: Dict<string, DomainConfig>,
    ranges: Dict<string, RangeInfo>)

  datatype FacetScore = FacetScore(
    name: string,
    score: int,
    items: seq<ItemId>,
    rawResponses: Dict<ItemId, int>,
    scoredResponses: Dict<ItemId, int>)

  datatype DomainScore = DomainScore(
    name: string,
    code: string,
    score: int,
    interpretation: string,
    items: seq<ItemId>,
    facets: Dict<string, FacetScore>,
    rawResponses: Dict<ItemId, int>,
    scoredResponses: Dict<ItemId, int>)
}
