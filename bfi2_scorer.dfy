/**
 * `BFI2Scorer` and `BFI2Result`: reverse coding, the mean of an item list,
 * the interpretation bands, facet and domain scoring, and the result record
 * whose summary is derived when it is constructed.
 *
 * Python dicts are `Dict`s (see module Dicts); the configuration is given as
 * a value and scores are integer hundredths (see module Hundredths).
 */
module Bfi2Scorer {
  import opened Wrappers
  import opened Dicts
  import opened Hundredths
  import opened Bfi2Model
  import opened Bfi2Dict

  /** The response assumed for an item that was not answered. */
  const Neutral := 3

  // ---- Reverse coding ----

  /**
   * `_reverse_score`: a reverse-coded item is read as `6 - r`.  The rule keeps
   * the 1..5 scale, fixes the neutral answer and undoes itself.
   */
  function ReverseScore(response: int, isReverse: bool): (r: int)
    ensures 1 <= response <= 5 ==> 1 <= r <= 5
    ensures r == Neutral <==> response == Neutral
    ensures (if isReverse then 6 - r else r) == response
  {
    if isReverse then 6 - response else response
  }

  /** `item in set(config.get("reverseItems", []))`. */
  predicate IsReversed(reverseItems: Option<seq<ItemId>>, item: ItemId) {
    item in reverseItems.GetOr([])
  }

  /** `responses.get(item, 3)`. */
  function Answer(responses: Responses, item: ItemId): int {
    GetOr(responses, item, Neutral)
  }

  lemma AnswerOnScale(responses: Responses, item: ItemId)
    requires OnScale(responses)
    ensures 1 <= Answer(responses, item) <= 5
  {
    GetFound(responses, item);
    var g := Get(responses, item);
    if g.Some? {
      var j :| 0 <= j < |responses| && responses[j] == (item, g.value);
    }
  }

  lemma AnswerUnanswered(responses: Responses, item: ItemId)
    requires item !in Keys(responses)
    ensures Answer(responses, item) == Neutral
  {
    GetFound(responses, item);
  }

  // ---- Scoring one list of items (shared by facets and domains) ----

  /** `{item: responses.get(item, 3) for item in items}`. */
  function RawResponses(items: seq<ItemId>, responses: Responses): Dict<ItemId, int> {
    FromItems(Graph((item: ItemId) => Answer(responses, item), items))
  }

  /** One entry per distinct item, in order of first occurrence, holding its answer. */
  lemma RawResponsesSpec(items: seq<ItemId>, responses: Responses)
    ensures var raw := RawResponses(items, responses);
      Keys(raw) == Dedup(items)
      && forall i :: 0 <= i < |raw| ==> raw[i].1 == Answer(responses, raw[i].0)
  {
    var f := (item: ItemId) => Answer(responses, item);
    FromItemsGraph(f, items);
    assert Keys(Graph(f, Dedup(items))) == Dedup(items);
  }

  /** The pairs of `{item: _reverse_score(resp, item in reverse) for item, resp in raw.items()}`. */
  function ScoredPairs(raw: Dict<ItemId, int>, reverseItems: Option<seq<ItemId>>): (p: Dict<ItemId, int>)
    ensures Keys(p) == Keys(raw)
    ensures forall i :: 0 <= i < |raw| ==> p[i] == (raw[i].0, ReverseScore(raw[i].1, IsReversed(reverseItems, raw[i].0)))
  {
    var p := seq(|raw|, i requires 0 <= i < |raw| =>
      (raw[i].0, ReverseScore(raw[i].1, IsReversed(reverseItems, raw[i].0))));
    assert Keys(p) == Keys(raw);
    p
  }

  /**
   * The reverse-corrected responses: since `raw` is a dict, each of its
   * entries is kept, in place, with its reverse-coded value.
   */
  function ScoredResponses(raw: Dict<ItemId, int>, reverseItems: Option<seq<ItemId>>): (scored: Dict<ItemId, int>)
    ensures DistinctKeys(raw) ==> scored == ScoredPairs(raw, reverseItems)
  {
    var p := ScoredPairs(raw, reverseItems);
    assert DistinctKeys(raw) ==> FromItems(p) == p by {
      if DistinctKeys(raw) {
        FromItemsOfDistinct(p);
      }
    }
    FromItems(p)
  }

  datatype ItemScores = ItemScores(raw: Dict<ItemId, int>, scored: Dict<ItemId, int>, score: int)

  /**
   * The body shared by `score_facet` and `score_domain`: raw and
   * reverse-corrected responses keyed by the distinct item ids, in order of
   * first occurrence, and the mean of the corrected values.
   */
  function ScoreItems(items: seq<ItemId>, reverseItems: Option<seq<ItemId>>, responses: Responses): ItemScores {
    var raw := RawResponses(items, responses);
    var scored := ScoredResponses(raw, reverseItems);
    ItemScores(raw, scored, Mean(Values(scored)))
  }

  lemma ScoreItemsSpec(items: seq<ItemId>, reverseItems: Option<seq<ItemId>>, responses: Responses)
    ensures var s := ScoreItems(items, reverseItems, responses);
      Keys(s.raw) == Dedup(items) && Keys(s.scored) == Dedup(items)
      && (forall i :: 0 <= i < |s.raw| ==> s.raw[i].1 == Answer(responses, s.raw[i].0))
      && (forall i :: 0 <= i < |s.scored| ==>
            s.scored[i].1 == ReverseScore(s.raw[i].1, IsReversed(reverseItems, s.raw[i].0)))
      && s.score == Mean(Values(s.scored))
      && (|items| == 0 ==> s.score == 0)
  {
    RawResponsesSpec(items, responses);
  }

  /** A non-empty item list answered on the 1..5 scale scores from 1.00 to 5.00. */
  lemma ScoreItemsOnScale(items: seq<ItemId>, reverseItems: Option<seq<ItemId>>, responses: Responses)
    requires OnScale(responses) && |items| > 0
    ensures 100 <= ScoreItems(items, reverseItems, responses).score <= 500
  {
    ScoreItemsSpec(items, reverseItems, responses);
    var s := ScoreItems(items, reverseItems, responses);
    var vs := Values(s.scored);
    assert items[0] in Dedup(items);
    forall i | 0 <= i < |vs|
      ensures 1 <= vs[i] <= 5
    {
      AnswerOnScale(responses, s.raw[i].0);
    }
    MeanWithin(vs, 1, 5);
  }

  /** No answered item: every value is the neutral 3, reverse-coded or not, so the score is 3.00. */
  lemma ScoreItemsUnanswered(items: seq<ItemId>, reverseItems: Option<seq<ItemId>>, responses: Responses)
    requires |items| > 0
    requires forall i :: 0 <= i < |items| ==> items[i] !in Keys(responses)
    ensures ScoreItems(items, reverseItems, responses).score == 100 * Neutral
  {
    ScoreItemsSpec(items, reverseItems, responses);
    var s := ScoreItems(items, reverseItems, responses);
    var vs := Values(s.scored);
    assert items[0] in Dedup(items);
    forall i | 0 <= i < |vs|
      ensures vs[i] == Neutral
    {
      assert s.raw[i].0 in Dedup(items);
      AnswerUnanswered(responses, s.raw[i].0);
    }
    MeanOfConstant(vs, Neutral);
  }

  /** Over distinct items, the entries follow the item list one for one. */
  lemma ScoreItemsDistinct(items: seq<ItemId>, reverseItems: Option<seq<ItemId>>, responses: Responses)
    requires NoDuplicates(items)
    ensures var s := ScoreItems(items, reverseItems, responses);
      |s.raw| == |items| && |s.scored| == |items|
      && (forall i :: 0 <= i < |items| ==> s.raw[i] == (items[i], Answer(responses, items[i])))
      && (forall i :: 0 <= i < |items| ==>
            s.scored[i] == (items[i], ReverseScore(Answer(responses, items[i]), IsReversed(reverseItems, items[i]))))
  {
    DedupOfDistinct(items);
    ScoreItemsSpec(items, reverseItems, responses);
    var s := ScoreItems(items, reverseItems, responses);
    assert Keys(s.raw) == items;
    assert Keys(s.scored) == items;
  }

  /** The corrected value of one item. */
  function ScoredAnswer(reverseItems: Option<seq<ItemId>>, responses: Responses, item: ItemId): int {
    ReverseScore(Answer(responses, item), IsReversed(reverseItems, item))
  }

  /** Three distinct items, scored one for one. */
  lemma ScoreItemsOfThree(a: ItemId, b: ItemId, c: ItemId, reverseItems: Option<seq<ItemId>>, responses: Responses)
    requires a != b && a != c && b != c
    ensures var s := ScoreItems([a, b, c], reverseItems, responses);
      s.raw == [(a, Answer(responses, a)), (b, Answer(responses, b)), (c, Answer(responses, c))]
      && s.scored == [(a, ScoredAnswer(reverseItems, responses, a)), (b, ScoredAnswer(reverseItems, responses, b)),
                      (c, ScoredAnswer(reverseItems, responses, c))]
      && s.score == Mean([ScoredAnswer(reverseItems, responses, a), ScoredAnswer(reverseItems, responses, b),
                          ScoredAnswer(reverseItems, responses, c)])
  {
    var items := [a, b, c];
    ScoreItemsDistinct(items, reverseItems, responses);
    ScoreItemsSpec(items, reverseItems, responses);
    var s := ScoreItems(items, reverseItems, responses);
    assert Values(s.scored) == [ScoredAnswer(reverseItems, responses, a), ScoredAnswer(reverseItems, responses, b),
                                ScoredAnswer(reverseItems, responses, c)];
  }

  lemma AnswersOfThree(responses: Responses)
    requires responses == [(2, 5), (7, 1), (12, 4)]
    ensures Answer(responses, 2) == 5 && Answer(responses, 7) == 1 && Answer(responses, 12) == 4
  {
    GetFirst(responses, 0);
    GetFirst(responses, 1);
    GetFirst(responses, 2);
  }

  /** Items [2, 7, 12], 7 reverse-coded, all answered {2: 5, 7: 1, 12: 4}: values 5, 5, 4 and 4.67. */
  lemma ScoreItemsExampleAnswered(items: seq<ItemId>, responses: Responses)
    requires items == [2, 7, 12] && responses == [(2, 5), (7, 1), (12, 4)]
    ensures var s := ScoreItems(items, Some([7]), responses);
      s.scored == [(2, 5), (7, 5), (12, 4)] && s.score == 467
  {
    assert [items[0], items[1], items[2]] == items;
    ScoreItemsOfThree(items[0], items[1], items[2], Some([7]), responses);
    AnswersOfThree(responses);
    SumOfThree(5, 5, 4);
  }

  /** Only item 2 answered: 7 and 12 default to 3 (and 7 reversed stays 3), so 11 / 3 = 3.67. */
  lemma ScoreItemsExampleDefaulted(items: seq<ItemId>, responses: Responses)
    requires items == [2, 7, 12] && responses == [(2, 5)]
    ensures var s := ScoreItems(items, Some([7]), responses);
      s.raw == [(2, 5), (7, 3), (12, 3)] && s.scored == [(2, 5), (7, 3), (12, 3)] && s.score == 367
  {
    assert [items[0], items[1], items[2]] == items;
    ScoreItemsOfThree(items[0], items[1], items[2], Some([7]), responses);
    GetFirst(responses, 0);
    GetFound(responses, 7);
    GetFound(responses, 12);
    SumOfThree(5, 3, 3);
  }

  /** `score_facet`. */
  function ScoreFacet(name: string, config: FacetConfig, responses: Responses): FacetScore {
    var s := ScoreItems(config.items, config.reverseItems, responses);
    FacetScore(name, s.score, config.items, s.raw, s.scored)
  }

  // ---- Interpretation ----

  /** `range_info["min"] <= score < range_info["max"]`. */
  predicate InBand(band: RangeInfo, score: int) {
    band.min <= score < band.max
  }

  /** The label when no band contains the score. */
  function Fallback(score: int): string {
    if score >= 500 then "Very High" else "Average"
  }

  /** The label chosen by `_interpret_score`: the first band, in declared order, containing the score. */
  function Interpretation(ranges: Dict<string, RangeInfo>, score: int): (text: string)
    ensures text == Fallback(score)
         || exists i :: 0 <= i < |ranges| && InBand(ranges[i].1, score) && text == ranges[i].1.labelText
  {
    if |ranges| == 0 then Fallback(score)
    else if InBand(ranges[0].1, score) then ranges[0].1.labelText
    else
      var rest := Interpretation(ranges[1..], score);
      assert rest != Fallback(score) ==> exists i :: 0 <= i < |ranges| && InBand(ranges[i].1, score) && rest == ranges[i].1.labelText by {
        if rest != Fallback(score) {
          var i :| 0 <= i < |ranges[1..]| && InBand(ranges[1..][i].1, score) && rest == ranges[1..][i].1.labelText;
          assert ranges[i + 1] == ranges[1..][i];
        }
      }
      rest
  }

  /** The first band containing the score decides its label. */
  lemma {:induction false} InterpretationFirstMatch(ranges: Dict<string, RangeInfo>, score: int, i: nat)
    requires i < |ranges| && InBand(ranges[i].1, score)
    requires forall j :: 0 <= j < i ==> !InBand(ranges[j].1, score)
    ensures Interpretation(ranges, score) == ranges[i].1.labelText
  {
    if i > 0 {
      InterpretationFirstMatch(ranges[1..], score, i - 1);
    }
  }

  /** In no band: "Very High" from 5.00 up, "Average" below. */
  lemma {:induction false} InterpretationNoMatch(ranges: Dict<string, RangeInfo>, score: int)
    requires forall j :: 0 <= j < |ranges| ==> !InBand(ranges[j].1, score)
    ensures Interpretation(ranges, score) == Fallback(score)
  {
    if |ranges| > 0 {
      InterpretationNoMatch(ranges[1..], score);
    }
  }

  /** No score lies in two bands. */
  predicate BandsDisjoint(ranges: Dict<string, RangeInfo>) {
    forall i, j :: 0 <= i < j < |ranges| ==>
      ranges[i].1.max <= ranges[j].1.min || ranges[j].1.max <= ranges[i].1.min
  }

  /** With disjoint bands, a score equal to a band's lower bound gets that band's label. */
  lemma InterpretationAtBandMin(ranges: Dict<string, RangeInfo>, i: nat)
    requires BandsDisjoint(ranges) && i < |ranges| && ranges[i].1.min < ranges[i].1.max
    ensures Interpretation(ranges, ranges[i].1.min) == ranges[i].1.labelText
  {
    InterpretationFirstMatch(ranges, ranges[i].1.min, i);
  }

  /** `_interpret_score`: a scan of the bands with an early return. */
  method InterpretScore(ranges: Dict<string, RangeInfo>, score: int) returns (text: string)
    ensures text == Interpretation(ranges, score)
  {
    for i := 0 to |ranges|
      invariant forall j :: 0 <= j < i ==> !InBand(ranges[j].1, score)
    {
      var band := ranges[i].1;
      if band.min <= score < band.max {
        InterpretationFirstMatch(ranges, score, i);
        return band.labelText;
      }
    }
    InterpretationNoMatch(ranges, score);
    if score >= 500 {
      return "Very High";
    }
    return "Average";
  }

  // ---- Domains ----

  /** The facets that `score_domain` assigns, in configuration order. */
  function FacetItems(facets: Dict<string, FacetConfig>, responses: Responses): (p: seq<(string, FacetScore)>)
    ensures Keys(p) == Keys(facets)
  {
    var p := seq(|facets|, i requires 0 <= i < |facets| =>
      (facets[i].0, ScoreFacet(facets[i].0, facets[i].1, responses)));
    assert Keys(p) == Keys(facets);
    p
  }

  /** The result of `score_domain`. */
  function DomainScoreOf(name: string, config: DomainConfig, ranges: Dict<string, RangeInfo>, responses: Responses): DomainScore {
    var s := ScoreItems(config.items, config.reverseItems, responses);
    var facets := FromItems(FacetItems(config.facets.GetOr([]), responses));
    DomainScore(name, config.code, s.score, Interpretation(ranges, s.score), config.items,
                facets, s.raw, s.scored)
  }

  /** A domain's score depends only on its own items and reverse items, never on its facets. */
  lemma DomainScoreIgnoresFacets(
    name: string, config: DomainConfig, facets: Option<Dict<string, FacetConfig>>,
    ranges: Dict<string, RangeInfo>, responses: Responses)
    ensures DomainScoreOf(name, config, ranges, responses).score
         == DomainScoreOf(name, config.(facets := facets), ranges, responses).score
    ensures DomainScoreOf(name, config, ranges, responses).interpretation
         == DomainScoreOf(name, config.(facets := facets), ranges, responses).interpretation
  {
    var d1 := DomainScoreOf(name, config, ranges, responses);
    var d2 := DomainScoreOf(name, config.(facets := facets), ranges, responses);
    assert d1.score == d2.score;
  }

  /** One facet score per configured facet, in configuration order. */
  lemma DomainFacets(name: string, config: DomainConfig, ranges: Dict<string, RangeInfo>, responses: Responses)
    requires config.facets.Some? && DistinctKeys(config.facets.value)
    ensures var d := DomainScoreOf(name, config, ranges, responses);
      var fs := config.facets.value;
      |d.facets| == |fs|
      && forall i :: 0 <= i < |fs| ==> d.facets[i] == (fs[i].0, ScoreFacet(fs[i].0, fs[i].1, responses))
  {
    FromItemsOfDistinct(FacetItems(config.facets.value, responses));
  }

  /** A domain configured without facets gets an empty facets dict. */
  lemma DomainWithoutFacets(name: string, config: DomainConfig, ranges: Dict<string, RangeInfo>, responses: Responses)
    requires config.facets.None?
    ensures DomainScoreOf(name, config, ranges, responses).facets == []
  {
  }

  /** With no responses at all, the domain and each of its non-empty facets score 3.00. */
  lemma DomainNeutralWithoutResponses(name: string, config: DomainConfig, ranges: Dict<string, RangeInfo>)
    requires |config.items| > 0
    ensures var d := DomainScoreOf(name, config, ranges, []);
      d.score == 300
      && forall i :: 0 <= i < |d.facets| && |d.facets[i].1.items| > 0 ==> d.facets[i].1.score == 300
  {
    var d := DomainScoreOf(name, config, ranges, []);
    ScoreItemsUnanswered(config.items, config.reverseItems, []);
    var fs := config.facets.GetOr([]);
    var p := FacetItems(fs, []);
    forall i | 0 <= i < |d.facets| && |d.facets[i].1.items| > 0
      ensures d.facets[i].1.score == 300
    {
      FromItemsEntry(p, i);
      var j :| 0 <= j < |p| && p[j] == d.facets[i];
      ScoreItemsUnanswered(fs[j].1.items, fs[j].1.reverseItems, []);
    }
  }

  /** `score_domain`: the facets dict is filled in a loop. */
  method ScoreDomain(name: string, config: DomainConfig, ranges: Dict<string, RangeInfo>, responses: Responses)
    returns (d: DomainScore)
    ensures d == DomainScoreOf(name, config, ranges, responses)
  {
    var s := ScoreItems(config.items, config.reverseItems, responses);
    var facetConfigs := config.facets.GetOr([]);
    ghost var pending := FacetItems(facetConfigs, responses);
    var facets: Dict<string, FacetScore> := [];
    for i := 0 to |facetConfigs|
      invariant facets == FromItems(pending[..i])
    {
      FromItemsStep(pending, i);
      facets := Put(facets, facetConfigs[i].0, ScoreFacet(facetConfigs[i].0, facetConfigs[i].1, responses));
    }
    assert pending[..|facetConfigs|] == pending;
    var interpretation := InterpretScore(ranges, s.score);
    d := DomainScore(name, config.code, s.score, interpretation, config.items, facets, s.raw, s.scored);
  }

  // ---- The whole result ----

  /** The domains that `score` assigns, in configuration order. */
  function DomainItems(config: ScoringConfig, responses: Responses): (p: seq<(string, DomainScore)>)
    ensures Keys(p) == Keys(config.domains)
  {
    var ds := config.domains;
    var p := seq(|ds|, i requires 0 <= i < |ds| =>
      (ds[i].0, DomainScoreOf(ds[i].0, ds[i].1, config.ranges, responses)));
    assert Keys(p) == Keys(ds);
    p
  }

  /** The `domains` dict of the result of `score`. */
  function DomainsOf(config: ScoringConfig, responses: Responses): Dict<string, DomainScore> {
    FromItems(DomainItems(config, responses))
  }

  /** Domains are scored and kept in configuration order, one entry per configured domain. */
  lemma DomainsFollowConfig(config: ScoringConfig, responses: Responses)
    requires DistinctKeys(config.domains)
    ensures DomainsOf(config, responses) == DomainItems(config, responses)
    ensures Keys(DomainsOf(config, responses)) == Keys(config.domains)
  {
    FromItemsOfDistinct(DomainItems(config, responses));
  }

  /** The pairs of `{domain.code: domain.score for domain in domains.values()}`. */
  function SummaryItems(domains: Dict<string, DomainScore>): (p: seq<(string, int)>)
    ensures |p| == |domains|
    ensures forall i :: 0 <= i < |domains| ==> p[i] == (domains[i].1.code, domains[i].1.score)
  {
    seq(|domains|, i requires 0 <= i < |domains| => (domains[i].1.code, domains[i].1.score))
  }

  /** The summary `__post_init__` derives. */
  function SummaryOf(domains: Dict<string, DomainScore>): Dict<string, int> {
    FromItems(SummaryItems(domains))
  }

  function Codes(domains: Dict<string, DomainScore>): (codes: seq<string>)
    ensures |codes| == |domains|
    ensures forall i :: 0 <= i < |domains| ==> codes[i] == domains[i].1.code
  {
    seq(|domains|, i requires 0 <= i < |domains| => domains[i].1.code)
  }

  /**
   * Every domain code is a summary key, each once; the summary gives it the
   * score of the last domain carrying that code.
   */
  lemma SummaryKeys(domains: Dict<string, DomainScore>)
    ensures Keys(SummaryOf(domains)) == Dedup(Codes(domains))
    ensures forall code :: Get(SummaryOf(domains), code) == LastValue(SummaryItems(domains), code)
  {
    assert Keys(SummaryItems(domains)) == Codes(domains);
    FromItemsSpec(SummaryItems(domains));
  }

  /** With distinct codes, `summary[d.code] == d.score` for every domain, in domain order. */
  lemma SummaryDistinctCodes(domains: Dict<string, DomainScore>)
    requires NoDuplicates(Codes(domains))
    ensures SummaryOf(domains) == SummaryItems(domains)
    ensures forall i :: 0 <= i < |domains| ==> Get(SummaryOf(domains), domains[i].1.code) == Some(domains[i].1.score)
  {
    var p := SummaryItems(domains);
    assert Keys(p) == Codes(domains);
    FromItemsOfDistinct(p);
    forall i | 0 <= i < |domains|
      ensures Get(p, domains[i].1.code) == Some(domains[i].1.score)
    {
      GetAt(p, i);
    }
  }

  /** `BFI2Result`: a dataclass whose `__post_init__` overwrites `summary`. */
  class BFI2Result {
    var persona: string
    var totalQuestions: int
    var domains: Dict<string, DomainScore>
    var summary: Dict<string, int>

    /** The generated constructor; any `summary` passed in is replaced by the derived one. */
    constructor (persona: string, totalQuestions: int, domains: Dict<string, DomainScore>, summary: Dict<string, int>)
      ensures this.persona == persona && this.totalQuestions == totalQuestions && this.domains == domains
      ensures this.summary == SummaryOf(domains)
    {
      this.persona := persona;
      this.totalQuestions := totalQuestions;
      this.domains := domains;
      this.summary := summary;
      new;
      PostInit();
    }

    /** `__post_init__`. */
    method PostInit()
      modifies this`summary
      ensures summary == SummaryOf(domains)
    {
      summary := SummaryOf(domains);
    }

    /** `to_dict`: every field of the result, of each domain and of each facet can be read back. */
    function ToDict(): Value
      reads this
    {
      ResultValue(persona, totalQuestions, summary, domains)
    }
  }

  /** What `score(responses, persona).to_dict()` returns. */
  function ScoredDict(config: ScoringConfig, responses: Responses, persona: string): Value {
    var domains := DomainsOf(config, responses);
    ResultValue(persona, |responses|, SummaryOf(domains), domains)
  }

  /**
   * `score`: the domains dict is filled in configuration order; the count of
   * questions is the number of responses supplied, not of configured items.
   * `responses` is a Python dict, so its keys are distinct.
   */
  method Score(config: ScoringConfig, responses: Responses, persona: string) returns (result: BFI2Result)
    requires DistinctKeys(responses)
    ensures fresh(result)
    ensures result.persona == persona && result.totalQuestions == |responses|
    ensures result.domains == DomainsOf(config, responses)
    ensures result.summary == SummaryOf(result.domains)
  {
    ghost var pending := DomainItems(config, responses);
    var domains: Dict<string, DomainScore> := [];
    for i := 0 to |config.domains|
      invariant domains == FromItems(pending[..i])
    {
      FromItemsStep(pending, i);
      var d := ScoreDomain(config.domains[i].0, config.domains[i].1, config.ranges, responses);
      domains := Put(domains, config.domains[i].0, d);
    }
    assert pending[..|config.domains|] == pending;
    result := new BFI2Result(persona, |responses|, domains, []);
  }
}
