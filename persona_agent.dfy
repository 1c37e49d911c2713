/**
 * `PersonaAgent`: the system prompt cut out of a persona file, the parse of
 * a model reply into a 1..5 answer, the survey loop that fills the response
 * map, and the record `save_responses` writes.
 *
 * The file contents and the model's replies are given as strings; the
 * chat-completion call itself is not part of this model.
 */
module PersonaAgent {
  import opened Wrappers
  import opened Dicts
  import opened Bfi2Model
  import opened Bfi2Dict

  const ResponseMin := 1
  const ResponseMax := 5
  const ResponseNeutral := 3

  // ---- Cutting the system prompt out of a persona file ----

  const StartMarker := "## System Prompt\n\n```\n"
  const EndMarker := "\n```\n"

  /** `pat` occurs in `s` at index `i`. */
  predicate OccursAt(s: string, pat: string, i: int) {
    0 <= i && i + |pat| <= |s| && s[i..i + |pat|] == pat
  }

  /** `s.find(pat, start)`: the lowest index from `start` on where `pat` occurs; `None` for -1. */
  function Find(s: string, pat: string, start: nat): (r: Option<nat>)
    ensures r.Some? ==> start <= r.value && OccursAt(s, pat, r.value)
    ensures r.Some? ==> forall j :: start <= j < r.value ==> !OccursAt(s, pat, j)
    ensures r.None? ==> forall j :: start <= j ==> !OccursAt(s, pat, j)
    decreases |s| - start
  {
    if start + |pat| > |s| then None
    else if s[start..start + |pat|] == pat then Some(start)
    else Find(s, pat, start + 1)
  }

  /** `find` returns the first occurrence from `start` on. */
  lemma {:induction false} FindFirst(s: string, pat: string, start: nat, i: nat)
    requires start <= i && OccursAt(s, pat, i)
    requires forall j :: start <= j < i ==> !OccursAt(s, pat, j)
    ensures Find(s, pat, start) == Some(i)
    decreases i - start
  {
    if start < i {
      assert !OccursAt(s, pat, start);
      FindFirst(s, pat, start + 1, i);
    }
  }

  /** `_load_persona_prompt` on the file's content. */
  function ExtractSystemPrompt(content: string): (prompt: string)
    ensures (forall j :: 0 <= j ==> !OccursAt(content, StartMarker, j)) ==> prompt == content
  {
    match Find(content, StartMarker, 0)
    case None => content
    case Some(i) =>
      var start := i + |StartMarker|;
      match Find(content, EndMarker, start)
      case None => content[start..]
      case Some(e) => content[start..e]
  }

  /** The first occurrence of the start marker is at `i`. */
  predicate FirstStartAt(content: string, i: nat) {
    OccursAt(content, StartMarker, i) && forall j :: 0 <= j < i ==> !OccursAt(content, StartMarker, j)
  }

  /** Start marker found, no end marker after it: everything after the start marker. */
  lemma ExtractWithoutEnd(content: string, i: nat)
    requires FirstStartAt(content, i)
    requires forall j :: i + |StartMarker| <= j ==> !OccursAt(content, EndMarker, j)
    ensures ExtractSystemPrompt(content) == content[i + |StartMarker|..]
  {
    FindFirst(content, StartMarker, 0, i);
  }

  /** Both markers found: the text strictly between the start marker and the first end marker after it. */
  lemma ExtractBetween(content: string, i: nat, e: nat)
    requires FirstStartAt(content, i)
    requires i + |StartMarker| <= e && OccursAt(content, EndMarker, e)
    requires forall j :: i + |StartMarker| <= j < e ==> !OccursAt(content, EndMarker, j)
    ensures ExtractSystemPrompt(content) == content[i + |StartMarker|..e]
    ensures forall k :: !OccursAt(ExtractSystemPrompt(content), EndMarker, k)
  {
    var start := i + |StartMarker|;
    FindFirst(content, StartMarker, 0, i);
    FindFirst(content, EndMarker, start, e);
    var prompt := content[start..e];
    forall k | 0 <= k
      ensures !OccursAt(prompt, EndMarker, k)
    {
      if k + |EndMarker| <= |prompt| {
        assert prompt[k..k + |EndMarker|] == content[start + k..start + k + |EndMarker|];
        assert !OccursAt(content, EndMarker, start + k);
      }
    }
  }

  // ---- Parsing a reply ----

  /** `str.isspace` for one character: the characters `str.strip` removes. */
  predicate IsPyWhitespace(c: char) {
    c == ' ' || '\U{9}' <= c <= '\U{D}' || '\U{1C}' <= c <= '\U{1F}' || c == '\U{85}' || c == '\U{A0}'
    || c == '\U{1680}' || '\U{2000}' <= c <= '\U{200A}' || c == '\U{2028}' || c == '\U{2029}'
    || c == '\U{202F}' || c == '\U{205F}' || c == '\U{3000}'
  }

  function TrimStart(s: string): (t: string)
    ensures |t| <= |s| && t == s[|s| - |t|..]
    ensures |t| > 0 ==> !IsPyWhitespace(t[0])
    ensures forall j :: 0 <= j < |s| - |t| ==> IsPyWhitespace(s[j])
  {
    if |s| > 0 && IsPyWhitespace(s[0]) then
      var t := TrimStart(s[1..]);
      assert forall j :: 1 <= j < |s| - |t| ==> s[j] == s[1..][j - 1];
      t
    else s
  }

  function TrimEnd(s: string): (t: string)
    ensures |t| <= |s| && t == s[..|t|]
    ensures |t| > 0 ==> !IsPyWhitespace(t[|t| - 1])
    ensures forall j :: |t| <= j < |s| ==> IsPyWhitespace(s[j])
  {
    if |s| > 0 && IsPyWhitespace(s[|s| - 1]) then TrimEnd(s[..|s| - 1]) else s
  }

  /** `str.strip()`: leading and trailing whitespace removed. */
  function Strip(s: string): (t: string)
    ensures |t| > 0 ==> !IsPyWhitespace(t[0]) && !IsPyWhitespace(t[|t| - 1])
    ensures |t| <= |s|
  {
    TrimEnd(TrimStart(s))
  }

  /** The value of a decimal digit character, or `None` where `int(c)` raises. */
  function Digit(c: char): Option<int> {
    if '0' <= c <= '9' then Some(c as int - '0' as int) else None
  }

  /**
   * The parse in `answer_question`: `int(reply.strip()[0])`, replaced by the
   * neutral answer when the reply is blank (IndexError), its first character
   * is not a digit (ValueError), or the digit is outside 1..5.
   */
  function ParseAnswer(reply: string): (a: int)
    ensures ResponseMin <= a <= ResponseMax
  {
    var t := Strip(reply);
    if |t| == 0 then ResponseNeutral
    else
      var d := Digit(t[0]);
      if d.Some? && ResponseMin <= d.value <= ResponseMax then d.value else ResponseNeutral
  }

  lemma {:induction false} TrimStartAt(s: string, i: nat)
    requires i < |s| && !IsPyWhitespace(s[i])
    requires forall j :: 0 <= j < i ==> IsPyWhitespace(s[j])
    ensures TrimStart(s) == s[i..]
  {
    if i > 0 {
      TrimStartAt(s[1..], i - 1);
      assert s[1..][i - 1..] == s[i..];
    }
  }

  lemma {:induction false} TrimStartBlank(s: string)
    requires forall j :: 0 <= j < |s| ==> IsPyWhitespace(s[j])
    ensures TrimStart(s) == []
  {
    if |s| > 0 {
      TrimStartBlank(s[1..]);
    }
  }

  lemma {:induction false} TrimEndKeepsFirst(s: string)
    requires |s| > 0 && !IsPyWhitespace(s[0])
    ensures |TrimEnd(s)| > 0 && TrimEnd(s)[0] == s[0]
  {
    if IsPyWhitespace(s[|s| - 1]) {
      TrimEndKeepsFirst(s[..|s| - 1]);
    }
  }

  lemma StripStartsAt(s: string, i: nat)
    requires i < |s| && !IsPyWhitespace(s[i])
    requires forall j :: 0 <= j < i ==> IsPyWhitespace(s[j])
    ensures |Strip(s)| > 0 && Strip(s)[0] == s[i]
  {
    TrimStartAt(s, i);
    TrimEndKeepsFirst(s[i..]);
  }

  lemma StripBlank(s: string)
    requires forall j :: 0 <= j < |s| ==> IsPyWhitespace(s[j])
    ensures Strip(s) == []
  {
    TrimStartBlank(s);
  }

  /** The answer is decided by the first character of the reply that is not whitespace. */
  lemma ParseAnswerFirstChar(reply: string, i: nat)
    requires i < |reply| && !IsPyWhitespace(reply[i])
    requires forall j :: 0 <= j < i ==> IsPyWhitespace(reply[j])
    ensures ParseAnswer(reply) == if '1' <= reply[i] <= '5' then reply[i] as int - '0' as int else ResponseNeutral
  {
    StripStartsAt(reply, i);
  }

  /** An empty or all-whitespace reply gives the neutral answer. */
  lemma ParseAnswerBlank(reply: string)
    requires forall j :: 0 <= j < |reply| ==> IsPyWhitespace(reply[j])
    ensures ParseAnswer(reply) == ResponseNeutral
  {
    StripBlank(reply);
  }

  // ---- The agent ----

  /** One entry of the questions file; only `id` is used in the survey. */
  datatype Question = Question(id: int, text: string, domain: string)

  /** The assignments `responses[question["id"]] = answer` of the survey loop, in order. */
  function SurveyItems(questions: seq<Question>, replies: seq<string>): (p: seq<(int, int)>)
    requires |replies| == |questions|
    ensures |p| == |questions|
    ensures forall i :: 0 <= i < |questions| ==> p[i] == (questions[i].id, ParseAnswer(replies[i]))
  {
    seq(|questions|, i requires 0 <= i < |questions| => (questions[i].id, ParseAnswer(replies[i])))
  }

  function Ids(questions: seq<Question>): (ids: seq<int>)
    ensures |ids| == |questions|
    ensures forall i :: 0 <= i < |questions| ==> ids[i] == questions[i].id
  {
    seq(|questions|, i requires 0 <= i < |questions| => questions[i].id)
  }

  /** The response map after the survey. */
  function SurveyResponses(questions: seq<Question>, replies: seq<string>): Dict<int, int>
    requires |replies| == |questions|
  {
    FromItems(SurveyItems(questions, replies))
  }

  /** One entry per distinct question id, in question order, every answer on the 1..5 scale. */
  lemma SurveyResponsesShape(questions: seq<Question>, replies: seq<string>)
    requires |replies| == |questions|
    ensures Keys(SurveyResponses(questions, replies)) == Dedup(Ids(questions))
    ensures OnScale(SurveyResponses(questions, replies))
  {
    var p := SurveyItems(questions, replies);
    var d := FromItems(p);
    assert Keys(p) == Ids(questions);
    FromItemsSpec(p);
    forall i | 0 <= i < |d|
      ensures 1 <= d[i].1 <= 5
    {
      FromItemsEntry(p, i);
    }
  }

  /** A question asked more than once keeps the answer to its last asking. */
  lemma SurveyLastAnswerWins(questions: seq<Question>, replies: seq<string>, j: nat)
    requires |replies| == |questions| && j < |questions|
    requires forall l :: j < l < |questions| ==> questions[l].id != questions[j].id
    ensures Get(SurveyResponses(questions, replies), questions[j].id) == Some(ParseAnswer(replies[j]))
  {
    var p := SurveyItems(questions, replies);
    FromItemsSpec(p);
    LastValueAt(p, j);
  }

  /** With distinct ids, the map lists each question with its parsed answer, in order. */
  lemma SurveyDistinctIds(questions: seq<Question>, replies: seq<string>)
    requires |replies| == |questions| && NoDuplicates(Ids(questions))
    ensures SurveyResponses(questions, replies) == SurveyItems(questions, replies)
  {
    var p := SurveyItems(questions, replies);
    assert Keys(p) == Ids(questions);
    FromItemsOfDistinct(p);
  }

  /** The message of the `ValueError` raised by `save_responses` before a survey. */
  const NoResponsesError := "No responses to save. Run take_survey() first."

  class PersonaAgent {
    const personaName: string
    const model: string
    const systemPrompt: string
    const questions: seq<Question>
    var responses: Dict<int, int>

    /** `__init__` with the persona file's content and the questions already read. */
    constructor (personaName: string, model: string, promptContent: string, questions: seq<Question>)
      ensures this.personaName == personaName && this.model == model && this.questions == questions
      ensures systemPrompt == ExtractSystemPrompt(promptContent)
      ensures responses == []
    {
      this.personaName := personaName;
      this.model := model;
      this.systemPrompt := ExtractSystemPrompt(promptContent);
      this.questions := questions;
      this.responses := [];
    }

    /**
     * `take_survey`, with `replies[i]` the model's reply to `questions[i]`:
     * the map is reset, then each parsed answer is assigned under its
     * question's id.  The map is returned as well as kept.
     */
    method TakeSurvey(replies: seq<string>) returns (answers: Dict<int, int>)
      requires |replies| == |questions|
      modifies this`responses
      ensures responses == SurveyResponses(questions, replies)
      ensures answers == responses
    {
      ghost var pending := SurveyItems(questions, replies);
      responses := [];
      for i := 0 to |questions|
        invariant responses == FromItems(pending[..i])
      {
        var answer := ParseAnswer(replies[i]);
        FromItemsStep(pending, i);
        responses := Put(responses, questions[i].id, answer);
      }
      assert pending[..|questions|] == pending;
      answers := responses;
    }

    /**
     * The record `save_responses` writes in `backend/src/agents`: refused
     * while there are no responses, and carrying the number of responses.
     */
    function SaveRecord(): (r: Result<Value, string>)
      reads this
      ensures r.Failure? <==> |responses| == 0
      ensures r.Failure? ==> r.error == NoResponsesError
      ensures r.Success? ==>
        StrField(r.value, "persona") == Some(personaName) && StrField(r.value, "model") == Some(model)
        && Field(r.value, "total_questions") == Some(VInt(|responses|))
        && IntDictField(r.value, "responses") == Some(responses)
    {
      if |responses| == 0 then Failure(NoResponsesError)
      else
        var v := VDict([
          (VStr("persona"), VStr(personaName)),
          (VStr("model"), VStr(model)),
          (VStr("total_questions"), VInt(|responses|)),
          (VStr("responses"), IntDict(responses))
        ]);
        FieldAt(v, "persona", 0);
        FieldAt(v, "model", 1);
        FieldAt(v, "total_questions", 2);
        FieldAt(v, "responses", 3);
        IntDictRoundTrip(responses);
        Success(v)
    }

    /** The record `save_responses` writes in `backend/scripts/agent_pretest`: no guard, no count. */
    function PretestSaveRecord(): (v: Value)
      reads this
      ensures StrField(v, "persona") == Some(personaName) && StrField(v, "model") == Some(model)
      ensures Field(v, "total_questions") == None
      ensures IntDictField(v, "responses") == Some(responses)
    {
      var v := VDict([
        (VStr("persona"), VStr(personaName)),
        (VStr("model"), VStr(model)),
        (VStr("responses"), IntDict(responses))
      ]);
      FieldAt(v, "persona", 0);
      FieldAt(v, "model", 1);
      FieldAt(v, "responses", 2);
      GetFound(v.entries, VStr("total_questions"));
      IntDictRoundTrip(responses);
      v
    }
  }
}
