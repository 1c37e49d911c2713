/**
 * `BFI2Result.to_dict`: the plain nested structure a result is stored and
 * sent as, and a decoder that reads every field back out of it.
 *
 * A `VFloat` holds a score in hundredths; dict keys are kept as the values
 * the source uses (strings for names and codes, ints for item ids).
 */
module Bfi2Dict {
  import opened Wrappers
  import opened Dicts
  import opened Bfi2Model

  datatype Value =
    | VInt(i: int)
    | VFloat(hundredths: int)
    | VStr(s: string)
    | VList(elems: seq<Value>)
    | VDict(entries: seq<(Value, Value)>)

  function IntList(xs: seq<int>): Value {
    VList(seq(|xs|, i requires 0 <= i < |xs| => VInt(xs[i])))
  }

  function IntDict(d: Dict<int, int>): Value {
    VDict(seq(|d|, i requires 0 <= i < |d| => (VInt(d[i].0), VInt(d[i].1))))
  }

  function FacetValue(f: FacetScore): Value {
    VDict([
      (VStr("name"), VStr(f.name)),
      (VStr("score"), VFloat(f.score)),
      (VStr("items"), IntList(f.items)),
      (VStr("raw_responses"), IntDict(f.rawResponses)),
      (VStr("scored_responses"), IntDict(f.scoredResponses))
    ])
  }

  function FacetsValue(fs: Dict<string, FacetScore>): Value {
    VDict(seq(|fs|, i requires 0 <= i < |fs| => (VStr(fs[i].0), FacetValue(fs[i].1))))
  }

  function DomainValue(d: DomainScore): Value {
    VDict([
      (VStr("name"), VStr(d.name)),
      (VStr("code"), VStr(d.code)),
      (VStr("score"), VFloat(d.score)),
      (VStr("interpretation"), VStr(d.interpretation)),
      (VStr("items"), IntList(d.items)),
      (VStr("raw_responses"), IntDict(d.rawResponses)),
      (VStr("scored_responses"), IntDict(d.scoredResponses)),
      (VStr("facets"), FacetsValue(d.facets))
    ])
  }

  function DomainsValue(ds: Dict<string, DomainScore>): Value {
    VDict(seq(|ds|, i requires 0 <= i < |ds| => (VStr(ds[i].0), DomainValue(ds[i].1))))
  }

  function SummaryValue(s: Dict<string, int>): Value {
    VDict(seq(|s|, i requires 0 <= i < |s| => (VStr(s[i].0), VFloat(s[i].1))))
  }

  /** The body of `to_dict` for a result with these fields. */
  function ResultValue(
    persona: string, totalQuestions: int,
    summary: Dict<string, int>, domains: Dict<string, DomainScore>): Value
  {
    VDict([
      (VStr("persona"), VStr(persona)),
      (VStr("total_questions"), VInt(totalQuestions)),
      (VStr("summary"), SummaryValue(summary)),
      (VStr("domains"), DomainsValue(domains))
    ])
  }

  // ---- Reading the structure back ----

  function Field(v: Value, key: string): Option<Value> {
    if v.VDict? then Get(v.entries, VStr(key)) else None
  }

  function StrField(v: Value, key: string): Option<string> {
    var f := Field(v, key);
    if f.Some? && f.value.VStr? then Some(f.value.s) else None
  }

  function FloatField(v: Value, key: string): Option<int> {
    var f := Field(v, key);
    if f.Some? && f.value.VFloat? then Some(f.value.hundredths) else None
  }

  function DecodeIntList(v: Value): Option<seq<int>> {
    if v.VList? && forall i :: 0 <= i < |v.elems| ==> v.elems[i].VInt? then
      Some(seq(|v.elems|, i requires 0 <= i < |v.elems| && v.elems[i].VInt? => v.elems[i].i))
    else None
  }

  predicate IntPair(e: (Value, Value)) {
    e.0.VInt? && e.1.VInt?
  }

  function DecodeIntDict(v: Value): Option<Dict<int, int>> {
    if v.VDict? && forall i :: 0 <= i < |v.entries| ==> IntPair(v.entries[i]) then
      Some(seq(|v.entries|, i requires 0 <= i < |v.entries| && IntPair(v.entries[i]) =>
        (v.entries[i].0.i, v.entries[i].1.i)))
    else None
  }

  function IntListField(v: Value, key: string): Option<seq<int>> {
    var f := Field(v, key);
    if f.Some? then DecodeIntList(f.value) else None
  }

  function IntDictField(v: Value, key: string): Option<Dict<int, int>> {
    var f := Field(v, key);
    if f.Some? then DecodeIntDict(f.value) else None
  }

  function DecodeFacet(v: Value): Option<FacetScore> {
    var name, score, items := StrField(v, "name"), FloatField(v, "score"), IntListField(v, "items");
    var raw, scored := IntDictField(v, "raw_responses"), IntDictField(v, "scored_responses");
    if name.Some? && score.Some? && items.Some? && raw.Some? && scored.Some? then
      Some(FacetScore(name.value, score.value, items.value, raw.value, scored.value))
    else None
  }

  function DecodeFacetEntries(es: seq<(Value, Value)>): Option<Dict<string, FacetScore>> {
    if |es| == 0 then Some([])
    else
      var f := DecodeFacet(es[0].1);
      var rest := DecodeFacetEntries(es[1..]);
      if es[0].0.VStr? && f.Some? && rest.Some? then Some([(es[0].0.s, f.value)] + rest.value)
      else None
  }

  function DecodeDomain(v: Value): Option<DomainScore> {
    var name, code, score := StrField(v, "name"), StrField(v, "code"), FloatField(v, "score");
    var interpretation, items := StrField(v, "interpretation"), IntListField(v, "items");
    var raw, scored := IntDictField(v, "raw_responses"), IntDictField(v, "scored_responses");
    var fv := Field(v, "facets");
    var facets := if fv.Some? && fv.value.VDict? then DecodeFacetEntries(fv.value.entries) else None;
    if name.Some? && code.Some? && score.Some? && interpretation.Some? && items.Some?
       && raw.Some? && scored.Some? && facets.Some?
    then
      Some(DomainScore(name.value, code.value, score.value, interpretation.value,
                       items.value, facets.value, raw.value, scored.value))
    else None
  }

  function DecodeDomainEntries(es: seq<(Value, Value)>): Option<Dict<string, DomainScore>> {
    if |es| == 0 then Some([])
    else
      var d := DecodeDomain(es[0].1);
      var rest := DecodeDomainEntries(es[1..]);
      if es[0].0.VStr? && d.Some? && rest.Some? then Some([(es[0].0.s, d.value)] + rest.value)
      else None
  }

  predicate StrFloatPair(e: (Value, Value)) {
    e.0.VStr? && e.1.VFloat?
  }

  function DecodeSummary(v: Value): Option<Dict<string, int>> {
    if v.VDict? && forall i :: 0 <= i < |v.entries| ==> StrFloatPair(v.entries[i]) then
      Some(seq(|v.entries|, i requires 0 <= i < |v.entries| && StrFloatPair(v.entries[i]) =>
        (v.entries[i].0.s, v.entries[i].1.hundredths)))
    else None
  }

  /** The fields of a result, as read back from its dict. */
  datatype ResultFields = ResultFields(
    persona: string, totalQuestions: int,
    summary: Dict<string, int>, domains: Dict<string, DomainScore>)

  function DecodeResult(v: Value): Option<ResultFields> {
    var persona := StrField(v, "persona");
    var total := Field(v, "total_questions");
    var sv, dv := Field(v, "summary"), Field(v, "domains");
    var summary := if sv.Some? then DecodeSummary(sv.value) else None;
    var domains := if dv.Some? && dv.value.VDict? then DecodeDomainEntries(dv.value.entries) else None;
    if persona.Some? && total.Some? && total.value.VInt? && summary.Some? && domains.Some? then
      Some(ResultFields(persona.value, total.value.i, summary.value, domains.value))
    else None
  }

  // ---- Round trips: the dict holds every field ----

  lemma IntListRoundTrip(xs: seq<int>)
    ensures DecodeIntList(IntList(xs)) == Some(xs)
  {
    var v := IntList(xs);
    assert forall i :: 0 <= i < |xs| ==> v.elems[i] == VInt(xs[i]);
    assert DecodeIntList(v).value == xs;
  }

  lemma IntDictRoundTrip(d: Dict<int, int>)
    ensures DecodeIntDict(IntDict(d)) == Some(d)
  {
    var v := IntDict(d);
    assert forall i :: 0 <= i < |d| ==> v.entries[i] == (VInt(d[i].0), VInt(d[i].1));
    assert DecodeIntDict(v).value == d;
  }

  /** The field stored under `key` at position `j` of a dict whose earlier keys differ. */
  lemma FieldAt(v: Value, key: string, j: nat)
    requires v.VDict? && j < |v.entries| && v.entries[j].0 == VStr(key)
    requires forall i :: 0 <= i < j ==> v.entries[i].0 != VStr(key)
    ensures Field(v, key) == Some(v.entries[j].1)
  {
    GetFirst(v.entries, j);
  }

  /** The layout of `FacetValue`, for arbitrary field values. */
  lemma FacetLayout(name: Value, score: Value, items: Value, raw: Value, scored: Value)
    ensures var v := VDict([(VStr("name"), name), (VStr("score"), score), (VStr("items"), items),
                            (VStr("raw_responses"), raw), (VStr("scored_responses"), scored)]);
      Field(v, "name") == Some(name) && Field(v, "score") == Some(score) && Field(v, "items") == Some(items)
      && Field(v, "raw_responses") == Some(raw) && Field(v, "scored_responses") == Some(scored)
  {
    var v := VDict([(VStr("name"), name), (VStr("score"), score), (VStr("items"), items),
                    (VStr("raw_responses"), raw), (VStr("scored_responses"), scored)]);
    FieldAt(v, "name", 0);
    FieldAt(v, "score", 1);
    FieldAt(v, "items", 2);
    FieldAt(v, "raw_responses", 3);
    FieldAt(v, "scored_responses", 4);
  }

  lemma FacetFields(f: FacetScore)
    ensures StrField(FacetValue(f), "name") == Some(f.name)
    ensures FloatField(FacetValue(f), "score") == Some(f.score)
    ensures IntListField(FacetValue(f), "items") == Some(f.items)
    ensures IntDictField(FacetValue(f), "raw_responses") == Some(f.rawResponses)
    ensures IntDictField(FacetValue(f), "scored_responses") == Some(f.scoredResponses)
  {
    FacetLayout(VStr(f.name), VFloat(f.score), IntList(f.items), IntDict(f.rawResponses), IntDict(f.scoredResponses));
    IntListRoundTrip(f.items);
    IntDictRoundTrip(f.rawResponses);
    IntDictRoundTrip(f.scoredResponses);
  }

  lemma FacetRoundTrip(f: FacetScore)
    ensures DecodeFacet(FacetValue(f)) == Some(f)
  {
    FacetFields(f);
  }

  lemma {:induction false} FacetEntriesRoundTrip(fs: Dict<string, FacetScore>)
    ensures DecodeFacetEntries(FacetsValue(fs).entries) == Some(fs)
  {
    if |fs| > 0 {
      FacetRoundTrip(fs[0].1);
      assert FacetsValue(fs).entries[1..] == FacetsValue(fs[1..]).entries;
      FacetEntriesRoundTrip(fs[1..]);
      assert fs == [fs[0]] + fs[1..];
    }
  }

  lemma DomainScalarFields(d: DomainScore)
    ensures StrField(DomainValue(d), "name") == Some(d.name)
    ensures StrField(DomainValue(d), "code") == Some(d.code)
    ensures FloatField(DomainValue(d), "score") == Some(d.score)
    ensures StrField(DomainValue(d), "interpretation") == Some(d.interpretation)
  {
    var v := DomainValue(d);
    FieldAt(v, "name", 0);
    FieldAt(v, "code", 1);
    FieldAt(v, "score", 2);
    FieldAt(v, "interpretation", 3);
  }

  lemma DomainCollectionFields(d: DomainScore)
    ensures IntListField(DomainValue(d), "items") == Some(d.items)
    ensures IntDictField(DomainValue(d), "raw_responses") == Some(d.rawResponses)
    ensures IntDictField(DomainValue(d), "scored_responses") == Some(d.scoredResponses)
    ensures Field(DomainValue(d), "facets") == Some(FacetsValue(d.facets))
  {
    var v := DomainValue(d);
    FieldAt(v, "items", 4);
    FieldAt(v, "raw_responses", 5);
    FieldAt(v, "scored_responses", 6);
    FieldAt(v, "facets", 7);
    IntListRoundTrip(d.items);
    IntDictRoundTrip(d.rawResponses);
    IntDictRoundTrip(d.scoredResponses);
  }

  lemma DomainRoundTrip(d: DomainScore)
    ensures DecodeDomain(DomainValue(d)) == Some(d)
  {
    DomainScalarFields(d);
    DomainCollectionFields(d);
    FacetEntriesRoundTrip(d.facets);
  }

  lemma {:induction false} DomainEntriesRoundTrip(ds: Dict<string, DomainScore>)
    ensures DecodeDomainEntries(DomainsValue(ds).entries) == Some(ds)
  {
    if |ds| > 0 {
      DomainsValueCons(ds);
      DomainRoundTrip(ds[0].1);
      DomainEntriesRoundTrip(ds[1..]);
      DecodeDomainEntriesCons(ds[0].0, DomainValue(ds[0].1), DomainsValue(ds[1..]).entries);
      assert ds == [ds[0]] + ds[1..];
    }
  }

  lemma DomainsValueCons(ds: Dict<string, DomainScore>)
    requires |ds| > 0
    ensures DomainsValue(ds).entries == [(VStr(ds[0].0), DomainValue(ds[0].1))] + DomainsValue(ds[1..]).entries
  {
  }

  lemma DecodeDomainEntriesCons(key: string, v: Value, es: seq<(Value, Value)>)
    ensures DecodeDomainEntries([(VStr(key), v)] + es)
         == if DecodeDomain(v).Some? && DecodeDomainEntries(es).Some?
            then Some([(key, DecodeDomain(v).value)] + DecodeDomainEntries(es).value) else None
  {
    assert ([(VStr(key), v)] + es)[1..] == es;
  }

  /** `to_dict` loses nothing: every field of the result, of each domain and of each facet comes back. */
  lemma ResultRoundTrip(
    persona: string, totalQuestions: int,
    summary: Dict<string, int>, domains: Dict<string, DomainScore>)
    ensures DecodeResult(ResultValue(persona, totalQuestions, summary, domains))
         == Some(ResultFields(persona, totalQuestions, summary, domains))
  {
    var v := ResultValue(persona, totalQuestions, summary, domains);
    FieldAt(v, "persona", 0);
    FieldAt(v, "total_questions", 1);
    FieldAt(v, "summary", 2);
    FieldAt(v, "domains", 3);
    var sv := SummaryValue(summary);
    assert forall i :: 0 <= i < |summary| ==> sv.entries[i] == (VStr(summary[i].0), VFloat(summary[i].1));
    assert DecodeSummary(sv).value == summary;
    DomainEntriesRoundTrip(domains);
  }
}
