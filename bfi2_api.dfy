/**
 * The BFI-2 response endpoints, without the web framework and the database:
 * normalisation and validation of a response map, and the fields a created
 * or updated response record receives.  The user and record lookups are
 * given as `Option`s; the scoring configuration is given as a value.
 */
module Bfi2Api {
  import opened Wrappers
  import opened Dicts
  import opened Bfi2Model
  import opened Bfi2Dict
  import opened Bfi2Scorer

  /** An `HTTPException`: its status code and detail message. */
  datatype ApiError = ApiError(statusCode: int, detail: string)

  const UserNotFound := ApiError(404, "User not found.")
  const ResponseNotFound := ApiError(404, "Response not found.")
  const InvalidResponses := ApiError(422, "Responses must be between 1 and 5.")

  /**
   * `_normalize_responses`: `{int(k): int(v) for k, v in responses.items()}`.
   * Keys and values are already integers, so `int` changes nothing, and a
   * dict's keys are distinct, so the map comes back as it was.
   */
  function NormalizeResponses(responses: Responses): (r: Responses)
    ensures DistinctKeys(r)
    ensures DistinctKeys(responses) ==> r == responses
    ensures forall k :: Get(r, k) == LastValue(responses, k)
  {
    FromItemsSpec(responses);
    if DistinctKeys(responses) then FromItemsOfDistinct(responses); FromItems(responses)
    else FromItems(responses)
  }

  /** The keys collected by `_validate_responses`: those whose value is below 1 or above 5. */
  function InvalidKeys(responses: Responses): (ks: seq<ItemId>)
    ensures forall k :: k in ks <==> exists i :: 0 <= i < |responses| && responses[i].0 == k && !(1 <= responses[i].1 <= 5)
  {
    if |responses| == 0 then []
    else
      var rest := InvalidKeys(responses[1..]);
      assert forall k :: k in rest <==> exists i :: 1 <= i < |responses| && responses[i].0 == k && !(1 <= responses[i].1 <= 5) by {
        forall k | k in rest
          ensures exists i :: 1 <= i < |responses| && responses[i].0 == k && !(1 <= responses[i].1 <= 5)
        {
          var j :| 0 <= j < |responses[1..]| && responses[1..][j].0 == k && !(1 <= responses[1..][j].1 <= 5);
          assert responses[j + 1] == responses[1..][j];
        }
        forall k | exists i :: 1 <= i < |responses| && responses[i].0 == k && !(1 <= responses[i].1 <= 5)
          ensures k in rest
        {
          var i :| 1 <= i < |responses| && responses[i].0 == k && !(1 <= responses[i].1 <= 5);
          assert responses[1..][i - 1] == responses[i];
        }
      }
      if 1 <= responses[0].1 <= 5 then rest else [responses[0].0] + rest
  }

  /** `_validate_responses`: raises 422 exactly when some value is off the 1..5 scale; an empty map passes. */
  function ValidateResponses(responses: Responses): (o: Outcome<ApiError>)
    ensures o.Pass? <==> OnScale(responses)
    ensures o.Fail? ==> o.error == InvalidResponses
  {
    if |InvalidKeys(responses)| > 0 then
      assert !OnScale(responses) by {
        assert InvalidKeys(responses)[0] in InvalidKeys(responses);
      }
      Fail(InvalidResponses)
    else
      assert OnScale(responses) by {
        forall i | 0 <= i < |responses|
          ensures 1 <= responses[i].1 <= 5
        {
          assert responses[i].0 !in InvalidKeys(responses);
        }
      }
      Pass
  }

  // ---- `str(user_id)` ----

  function DigitChar(d: int): char
    requires 0 <= d < 10
  {
    "0123456789"[d]
  }

  function DigitValue(c: char): int {
    if '0' <= c <= '9' then c as int - '0' as int else 0
  }

  /** The decimal digits of `n`, without leading zeros. */
  function NatToString(n: nat): (s: string)
    ensures |s| > 0 && forall i :: 0 <= i < |s| ==> '0' <= s[i] <= '9'
    ensures |s| > 1 ==> s[0] != '0'
  {
    if n < 10 then [DigitChar(n)]
    else NatToString(n / 10) + [DigitChar(n % 10)]
  }

  /** The number a string of decimal digits denotes. */
  function ParseDigits(s: string): nat {
    if |s| == 0 then 0
    else
      var d := DigitValue(s[|s| - 1]);
      ParseDigits(s[..|s| - 1]) * 10 + (if d < 0 then 0 else d)
  }

  /** Reading the digits back gives the number: `int(str(n)) == n`. */
  lemma {:induction false} NatToStringRoundTrip(n: nat)
    ensures ParseDigits(NatToString(n)) == n
  {
    if n >= 10 {
      var s := NatToString(n / 10);
      NatToStringRoundTrip(n / 10);
      assert (s + [DigitChar(n % 10)])[..|s|] == s;
    }
  }

  /** `str(i)` for an int. */
  function IntToString(i: int): (s: string)
    ensures |s| > 0
    ensures i >= 0 <==> s[0] != '-'
  {
    if i < 0 then "-" + NatToString(-i) else NatToString(i)
  }

  /** `int(s)` on what `str` prints: an optional minus sign, then digits. */
  function ParseInt(s: string): int {
    if |s| > 0 && s[0] == '-' then -(ParseDigits(s[1..]) as int) else ParseDigits(s)
  }

  /** `int(str(i)) == i`. */
  lemma IntToStringRoundTrip(i: int)
    ensures ParseInt(IntToString(i)) == i
  {
    if i < 0 {
      var t := NatToString(-i);
      NatToStringRoundTrip(-i);
      assert IntToString(i) == "-" + t;
      assert ("-" + t)[1..] == t;
    } else {
      var t := NatToString(i);
      NatToStringRoundTrip(i);
      assert IntToString(i) == t && t[0] != '-';
    }
  }

  /** `str` gives different ids different personas. */
  lemma IntToStringInjective(i: int, j: int)
    requires IntToString(i) == IntToString(j)
    ensures i == j
  {
    IntToStringRoundTrip(i);
    IntToStringRoundTrip(j);
  }

  // ---- Records ----

  datatype User = User(id: int, participantId: string)

  /** `BFI2ResponseCreate`. */
  datatype CreatePayload = CreatePayload(userId: int, surveyType: string, responses: Responses)

  /** `BFI2ResponseUpdate` after `model_dump(exclude_unset=True)`: a field is `Some` exactly when it was sent. */
  datatype UpdatePayload = UpdatePayload(surveyType: Option<string>, responses: Option<Responses>)

  /** The fields of a stored response that the endpoints write. */
  datatype ResponseFields = ResponseFields(surveyType: string, responses: Responses, scored: Value)

  /**
   * The new fields after `update_response`, or the error it raises.  The
   * persona of a re-scored record is `str(user_id)`.
   */
  function ApplyUpdate(config: ScoringConfig, userId: int, rec: ResponseFields, payload: UpdatePayload)
    : Result<ResponseFields, ApiError>
  {
    var afterResponses :=
      if payload.responses.Some? then
        var normalized := NormalizeResponses(payload.responses.value);
        if ValidateResponses(normalized).Fail? then Failure(InvalidResponses)
        else Success(rec.(responses := normalized, scored := ScoredDict(config, normalized, IntToString(userId))))
      else Success(rec);
    if afterResponses.Failure? then afterResponses
    else if payload.surveyType.Some? then Success(afterResponses.value.(surveyType := payload.surveyType.value))
    else afterResponses
  }

  /**
   * An update fails exactly when it sends responses off the scale; otherwise
   * each field it sends is replaced and the scores are recomputed from the
   * normalised responses, and a field it leaves out keeps its value.
   */
  lemma ApplyUpdateSpec(config: ScoringConfig, userId: int, rec: ResponseFields, payload: UpdatePayload)
    ensures var r := ApplyUpdate(config, userId, rec, payload);
      (r.Failure? <==> payload.responses.Some? && !OnScale(NormalizeResponses(payload.responses.value)))
      && (r.Failure? ==> r.error == InvalidResponses)
      && (r.Success? ==> r.value.surveyType == payload.surveyType.GetOr(rec.surveyType))
      && (r.Success? && payload.responses.None? ==> r.value.responses == rec.responses && r.value.scored == rec.scored)
      && (r.Success? && payload.responses.Some? ==>
            r.value.responses == NormalizeResponses(payload.responses.value) && OnScale(r.value.responses)
            && DecodeResult(r.value.scored) == Some(ResultFields(
                 IntToString(userId), |r.value.responses|,
                 SummaryOf(DomainsOf(config, r.value.responses)), DomainsOf(config, r.value.responses))))
      && (payload == UpdatePayload(None, None) ==> r == Success(rec))
  {
    if payload.responses.Some? {
      var normalized := NormalizeResponses(payload.responses.value);
      var domains := DomainsOf(config, normalized);
      ResultRoundTrip(IntToString(userId), |normalized|, SummaryOf(domains), domains);
    }
  }

  /** A stored `BFI2Response` row. */
  class BFI2Response {
    const userId: int
    var surveyType: string
    var responses: Responses
    var scored: Value

    constructor (userId: int, surveyType: string, responses: Responses, scored: Value)
      ensures this.userId == userId && Fields() == ResponseFields(surveyType, responses, scored)
    {
      this.userId := userId;
      this.surveyType := surveyType;
      this.responses := responses;
      this.scored := scored;
    }

    function Fields(): ResponseFields
      reads this
    {
      ResponseFields(surveyType, responses, scored)
    }

    /**
     * The field assignments of `update_response`: the responses are checked
     * before anything is assigned, and each field changes only when sent.
     */
    method Update(config: ScoringConfig, payload: UpdatePayload) returns (o: Outcome<ApiError>)
      modifies this
      ensures var r := ApplyUpdate(config, userId, old(Fields()), payload);
        if r.Failure? then o == Fail(r.error) && Fields() == old(Fields())
        else o == Pass && Fields() == r.value
    {
      if payload.responses.Some? {
        var normalized := NormalizeResponses(payload.responses.value);
        var valid := ValidateResponses(normalized);
        if valid.Fail? {
          return valid;
        }
        var result := Score(config, normalized, IntToString(userId));
        var v := result.ToDict();
        assert v == ScoredDict(config, normalized, IntToString(userId));
        responses, scored := normalized, v;
      }
      if payload.surveyType.Some? {
        surveyType := payload.surveyType.value;
      }
      o := Pass;
    }
  }

  /**
   * `create_response`: 404 when the user does not exist, 422 when a response
   * is off the scale (checked before scoring), otherwise a new record holding
   * the normalised responses and their scores under the participant id.
   * `user` is the lookup of `payload.userId`.
   */
  method CreateResponse(config: ScoringConfig, user: Option<User>, payload: CreatePayload)
    returns (r: Result<BFI2Response, ApiError>)
    requires user.Some? ==> user.value.id == payload.userId
    ensures user.None? ==> r == Failure(UserNotFound)
    ensures user.Some? && !OnScale(NormalizeResponses(payload.responses)) ==> r == Failure(InvalidResponses)
    ensures user.Some? && OnScale(NormalizeResponses(payload.responses)) ==>
      var normalized := NormalizeResponses(payload.responses);
      r.Success? && fresh(r.value) && r.value.userId == payload.userId
      && r.value.Fields() == ResponseFields(payload.surveyType, normalized,
                                            ScoredDict(config, normalized, user.value.participantId))
  {
    if user.None? {
      return Failure(UserNotFound);
    }
    var normalized := NormalizeResponses(payload.responses);
    var valid := ValidateResponses(normalized);
    if valid.Fail? {
      return Failure(valid.error);
    }
    var result := Score(config, normalized, user.value.participantId);
    var scored := result.ToDict();
    var record := new BFI2Response(user.value.id, payload.surveyType, normalized, scored);
    r := Success(record);
  }

  /** `update_response`: 404 when no record has the id, otherwise the update above. */
  method UpdateResponse(config: ScoringConfig, found: Option<BFI2Response>, payload: UpdatePayload)
    returns (o: Outcome<ApiError>)
    modifies if found.Some? then {found.value} else {}
    ensures found.None? ==> o == Fail(ResponseNotFound)
    ensures found.Some? ==>
      var r := ApplyUpdate(config, found.value.userId, old(found.value.Fields()), payload);
      if r.Failure? then o == Fail(r.error) && found.value.Fields() == old(found.value.Fields())
      else o == Pass && found.value.Fields() == r.value
  {
    if found.None? {
      return Fail(ResponseNotFound);
    }
    o := found.value.Update(config, payload);
  }
}
