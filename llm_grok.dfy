// The structural validator of the language model's reply, over an already-parsed
// JSON value, and the keyword rule that answers when the model cannot be reached.
// The same code ships twice, in backend/llm_grok.py and guild_buildathon/llm_grok.py.

module LlmGrok {
  import opened Text
  import Processors

  /** A value as Python's json.loads returns it. */
  datatype Json =
    | JNull
    | JBool(b: bool)
    | JNum(n: real)
    | JString(s: string)
    | JArray(items: seq<Json>)
    | JObject(fields: map<string, Json>)

  /** What the validator does: returns the object unchanged, returns None, or lets a
      TypeError escape (only a JSON decoding error is caught). */
  datatype Validation = Accepted(data: Json) | Rejected | Raises

  const RequiredFields: seq<string> := ["assistant_text", "mood", "summary", "action", "outcome_hint"]
  const MoodLabels: seq<string> := ["receptive", "neutral", "negative"]
  const Actions: seq<string> := ["reply", "escalate", "schedule_followup", "request_payment"]
  const OutcomeLabels: seq<string> := ["Resolved", "Payment Promised", "Needs Follow-up", "Escalate"]

  // ---------------------------------------------------------------------------
  // Python's `field in data` and `data[field]` on a parsed value

  /** A value `in` can look into: a dict (keys), a list (elements) or a str
      (substrings); on any other value `in` raises TypeError. */
  predicate IsContainer(j: Json) {
    j.JObject? || j.JArray? || j.JString?
  }

  predicate HasField(j: Json, f: string)
    requires IsContainer(j)
  {
    match j
    case JObject(m) => f in m
    case JArray(xs) => JString(f) in xs
    case JString(s) => Contains(s, f)
  }

  /** A dict holding both "label" and "confidence". */
  predicate Labelled(j: Json) {
    j.JObject? && "label" in j.fields && "confidence" in j.fields
  }

  /** `j in options` for a list of strings: only an equal string matches. */
  predicate OneOf(j: Json, options: seq<string>) {
    j.JString? && j.s in options
  }

  predicate HasAllFields(data: Json)
    requires IsContainer(data)
  {
    forall i | 0 <= i < |RequiredFields| :: HasField(data, RequiredFields[i])
  }

  // ---------------------------------------------------------------------------
  // _validate_json_response

  /** The checks in order: every required field is present, then the mood is a
      labelled dict with a known label, the action is known, and the outcome hint is
      a labelled dict with a known label. */
  function Validate(data: Json): Validation {
    if !IsContainer(data) then Raises
    else if !HasAllFields(data) then Rejected
    else if !data.JObject? then Raises
    else
      var m := data.fields;
      assert RequiredFields[1] == "mood" && RequiredFields[3] == "action" && RequiredFields[4] == "outcome_hint";
      if !Labelled(m["mood"]) then Rejected
      else if !OneOf(m["mood"].fields["label"], MoodLabels) then Rejected
      else if !OneOf(m["action"], Actions) then Rejected
      else if !Labelled(m["outcome_hint"]) then Rejected
      else if !OneOf(m["outcome_hint"].fields["label"], OutcomeLabels) then Rejected
      else Accepted(data)
  }

  /** The validator as written: a loop over the required fields with early returns,
      then the structural checks. */
  method ValidateResponse(data: Json) returns (r: Validation)
    ensures r == Validate(data)
  {
    for i := 0 to |RequiredFields|
      invariant i > 0 ==> IsContainer(data)
      invariant forall j | 0 <= j < i :: IsContainer(data) && HasField(data, RequiredFields[j])
    {
      if !IsContainer(data) {
        return Raises;
      }
      if !HasField(data, RequiredFields[i]) {
        return Rejected;
      }
    }
    if !IsContainer(data) {
      return Raises;
    }
    if !data.JObject? {
      return Raises;
    }
    var m := data.fields;
    assert HasField(data, RequiredFields[1]) && HasField(data, RequiredFields[3]) && HasField(data, RequiredFields[4]);
    var mood := m["mood"];
    if !mood.JObject? || "label" !in mood.fields || "confidence" !in mood.fields {
      return Rejected;
    }
    if !OneOf(mood.fields["label"], MoodLabels) {
      return Rejected;
    }
    if !OneOf(m["action"], Actions) {
      return Rejected;
    }
    var hint := m["outcome_hint"];
    if !hint.JObject? || "label" !in hint.fields || "confidence" !in hint.fields {
      return Rejected;
    }
    if !OneOf(hint.fields["label"], OutcomeLabels) {
      return Rejected;
    }
    return Accepted(data);
  }

  /** An accepted value is the input itself: a dict with the five fields, a known
      mood label, action and outcome label. */
  lemma AcceptedShape(data: Json)
    requires Validate(data).Accepted?
    ensures Validate(data).data == data
    ensures data.JObject? && forall i | 0 <= i < |RequiredFields| :: RequiredFields[i] in data.fields
    ensures "mood" in data.fields && "action" in data.fields && "outcome_hint" in data.fields
    ensures Labelled(data.fields["mood"]) && OneOf(data.fields["mood"].fields["label"], MoodLabels)
    ensures OneOf(data.fields["action"], Actions)
    ensures Labelled(data.fields["outcome_hint"]) && OneOf(data.fields["outcome_hint"].fields["label"], OutcomeLabels)
  {
    assert RequiredFields[1] == "mood" && RequiredFields[3] == "action" && RequiredFields[4] == "outcome_hint";
  }

  /** A dict that lacks one of the required fields is rejected. */
  lemma MissingFieldRejected(m: map<string, Json>, i: nat)
    requires i < |RequiredFields| && RequiredFields[i] !in m
    ensures Validate(JObject(m)) == Rejected
  {
    assert !HasField(JObject(m), RequiredFields[i]);
  }

  /** A dict never makes the validator raise: every failed check returns None. */
  lemma DictNeverRaises(m: map<string, Json>)
    ensures Validate(JObject(m)) != Raises
  {
  }

  /** The converse of `AcceptedShape`: a dict with the five fields, a labelled mood
      with a known label, a known action and a labelled outcome hint with a known
      label is accepted unchanged. */
  lemma ShapeAccepted(m: map<string, Json>)
    requires forall i | 0 <= i < |RequiredFields| :: RequiredFields[i] in m
    requires "mood" in m && Labelled(m["mood"]) && OneOf(m["mood"].fields["label"], MoodLabels)
    requires "action" in m && OneOf(m["action"], Actions)
    requires "outcome_hint" in m && Labelled(m["outcome_hint"])
    requires OneOf(m["outcome_hint"].fields["label"], OutcomeLabels)
    ensures Validate(JObject(m)) == Accepted(JObject(m))
  {
  }

  /** The validator raises exactly on a value `in` cannot look into, and on a list or
      str that holds all five names and is then indexed with `data["mood"]`. */
  lemma RaisesExactly(data: Json)
    ensures Validate(data) == Raises <==>
      !IsContainer(data) || (!data.JObject? && HasAllFields(data))
  {
  }

  /** Neither confidence is range-checked: any value in its place is accepted. */
  lemma ConfidenceUnchecked(m: map<string, Json>, c: Json, d: Json)
    requires Validate(JObject(m)).Accepted?
    requires "mood" in m && m["mood"].JObject? && "outcome_hint" in m && m["outcome_hint"].JObject?
    ensures var mood := JObject(m["mood"].fields["confidence" := c]);
      var hint := JObject(m["outcome_hint"].fields["confidence" := d]);
      var data' := JObject(m["mood" := mood]["outcome_hint" := hint]);
      Validate(data') == Accepted(data')
  {
    AcceptedShape(JObject(m));
    var mood := JObject(m["mood"].fields["confidence" := c]);
    var hint := JObject(m["outcome_hint"].fields["confidence" := d]);
    var m' := m["mood" := mood]["outcome_hint" := hint];
    assert forall i | 0 <= i < |RequiredFields| :: RequiredFields[i] in m';
    assert m'["mood"] == mood && m'["outcome_hint"] == hint;
    assert m'["action"] == m["action"];
  }

  // ---------------------------------------------------------------------------
  // _get_fallback_response

  datatype ChatMessage = ChatMessage(role: string, content: string)

  /** The content of the last message whose role is "user", or "" without one. */
  function LastUserContent(messages: seq<ChatMessage>): string
    decreases |messages|
  {
    if messages == [] then ""
    else if messages[|messages| - 1].role == "user" then messages[|messages| - 1].content
    else LastUserContent(messages[..|messages| - 1])
  }

  /** `for msg in reversed(messages)`, stopping at the first user message. */
  method LastUserMessage(messages: seq<ChatMessage>) returns (last: string)
    ensures last == LastUserContent(messages)
  {
    last := "";
    var i := |messages|;
    assert messages[..i] == messages;
    while i > 0
      invariant 0 <= i <= |messages|
      invariant LastUserContent(messages) == LastUserContent(messages[..i])
    {
      assert messages[..i][..i - 1] == messages[..i - 1];
      if messages[i - 1].role == "user" {
        last := messages[i - 1].content;
        break;
      }
      i := i - 1;
    }
  }

  /** Without a user message the fallback reads "". */
  lemma {:induction false} LastUserContentNone(messages: seq<ChatMessage>)
    requires forall j | 0 <= j < |messages| :: messages[j].role != "user"
    ensures LastUserContent(messages) == ""
    decreases |messages|
  {
    if messages != [] {
      var n := |messages| - 1;
      assert forall j | 0 <= j < n :: messages[..n][j] == messages[j];
      LastUserContentNone(messages[..n]);
    }
  }

  /** The index of the last user message, or -1 without one. */
  ghost function LastUserIndex(messages: seq<ChatMessage>): int
    decreases |messages|
  {
    if messages == [] then -1
    else if messages[|messages| - 1].role == "user" then |messages| - 1
    else LastUserIndex(messages[..|messages| - 1])
  }

  lemma {:induction false} LastUserIndexSpec(messages: seq<ChatMessage>)
    ensures -1 <= LastUserIndex(messages) < |messages|
    ensures forall i | LastUserIndex(messages) < i < |messages| :: messages[i].role != "user"
    ensures LastUserIndex(messages) >= 0 ==>
      var k := LastUserIndex(messages);
      messages[k].role == "user" && LastUserContent(messages) == messages[k].content
    decreases |messages|
  {
    if messages != [] && messages[|messages| - 1].role != "user" {
      var n := |messages| - 1;
      var init := messages[..n];
      LastUserIndexSpec(init);
      assert forall i | 0 <= i < n :: messages[i] == init[i];
    }
  }

  /** Only the last user message counts: the result is the content of a user message
      after which no user message follows. */
  lemma LastUserContentIsLast(messages: seq<ChatMessage>, j: nat)
    requires j < |messages| && messages[j].role == "user"
    ensures exists k | j <= k < |messages| ::
      (messages[k].role == "user"
       && LastUserContent(messages) == messages[k].content
       && forall i | k < i < |messages| :: messages[i].role != "user")
  {
    LastUserIndexSpec(messages);
    var k := LastUserIndex(messages);
    assert j <= k;
    assert messages[k].role == "user" && LastUserContent(messages) == messages[k].content;
  }

  const FallbackNegativeWords: seq<string> := ["cancel", "refund", "angry", "terrible", "hate"]
  const FallbackPositiveWords: seq<string> := ["yes", "sure", "agree", "pay", "payment"]

  const NegativeReply := "I understand you're not satisfied. Let me connect you with a specialist who can help resolve this issue."
  const ReceptiveReply := "Great! I'll help you with that. Let me process your request."
  const NeutralReply := "Thank you for your message. I'm here to help with your insurance needs."

  /** Which rule the fallback applies to the last user message. */
  datatype Branch = NegativeBranch | ReceptiveBranch | NeutralBranch

  function FallbackBranch(last: string): (b: Branch)
    ensures b == NegativeBranch <==> Processors.AnyPresent(FallbackNegativeWords, Lower(last))
    ensures b == ReceptiveBranch <==>
      !Processors.AnyPresent(FallbackNegativeWords, Lower(last)) && Processors.AnyPresent(FallbackPositiveWords, Lower(last))
  {
    if Processors.AnyPresent(FallbackNegativeWords, Lower(last)) then NegativeBranch
    else if Processors.AnyPresent(FallbackPositiveWords, Lower(last)) then ReceptiveBranch
    else NeutralBranch
  }

  /** `last[:100] + "..." if len(last) > 100 else last` */
  function Truncated(last: string): (r: string)
    ensures |r| <= 103
    ensures |last| <= 100 ==> r == last
    ensures |last| > 100 ==> |r| == 103 && r[..100] == last[..100] && r[100..] == "..."
  {
    if |last| > 100 then last[..100] + "..." else last
  }

  function Labelling(name: string, confidence: real): Json {
    JObject(map["label" := JString(name), "confidence" := JNum(confidence)])
  }

  function Reply(text: string, mood: Json, last: string, action: string, hint: Json): Json {
    JObject(map[
      "assistant_text" := JString(text),
      "mood" := mood,
      "summary" := JArray([JString(Truncated(last))]),
      "action" := JString(action),
      "outcome_hint" := hint])
  }

  /** The reply built for the last user message. */
  function FallbackFor(last: string): Json {
    match FallbackBranch(last)
    case NegativeBranch =>
      Reply(NegativeReply, Labelling("negative", 0.8), last, "escalate", Labelling("Escalate", 0.8))
    case ReceptiveBranch =>
      Reply(ReceptiveReply, Labelling("receptive", 0.7), last, "request_payment", Labelling("Payment Promised", 0.7))
    case NeutralBranch =>
      Reply(NeutralReply, Labelling("neutral", 0.6), last, "reply", Labelling("Needs Follow-up", 0.6))
  }

  method GetFallbackResponse(messages: seq<ChatMessage>) returns (r: Json)
    ensures r == FallbackFor(LastUserContent(messages))
  {
    var last := LastUserMessage(messages);
    r := FallbackFor(last);
  }

  lemma ReplyValidates(text: string, mood: string, c: real, last: string, action: string, hint: string, d: real)
    requires mood in MoodLabels && action in Actions && hint in OutcomeLabels
    ensures var r := Reply(text, Labelling(mood, c), last, action, Labelling(hint, d));
      Validate(r) == Accepted(r)
  {
    var r := Reply(text, Labelling(mood, c), last, action, Labelling(hint, d));
    assert forall i | 0 <= i < |RequiredFields| :: HasField(r, RequiredFields[i]);
  }

  /** Whatever the conversation, the fallback reply passes the validator. */
  lemma FallbackValidates(messages: seq<ChatMessage>)
    ensures Validate(FallbackFor(LastUserContent(messages))) == Accepted(FallbackFor(LastUserContent(messages)))
  {
    var last := LastUserContent(messages);
    match FallbackBranch(last)
    case NegativeBranch =>
      ReplyValidates(NegativeReply, "negative", 0.8, last, "escalate", "Escalate", 0.8);
    case ReceptiveBranch =>
      ReplyValidates(ReceptiveReply, "receptive", 0.7, last, "request_payment", "Payment Promised", 0.7);
    case NeutralBranch =>
      ReplyValidates(NeutralReply, "neutral", 0.6, last, "reply", "Needs Follow-up", 0.6);
  }

  /** Each branch pairs its mood with one action and one outcome, and the negative one
      always meets the conversation's escalation rule. */
  lemma FallbackConsistent(last: string)
    ensures var r := FallbackFor(last).fields;
      match FallbackBranch(last)
      case NegativeBranch =>
        r["mood"] == Labelling("negative", 0.8) && r["action"] == JString("escalate")
        && r["outcome_hint"] == Labelling("Escalate", 0.8)
        && Processors.ShouldEscalateReply("escalate", "negative", 0.8)
      case ReceptiveBranch =>
        r["mood"] == Labelling("receptive", 0.7) && r["action"] == JString("request_payment")
        && r["outcome_hint"] == Labelling("Payment Promised", 0.7)
      case NeutralBranch =>
        r["mood"] == Labelling("neutral", 0.6) && r["action"] == JString("reply")
        && r["outcome_hint"] == Labelling("Needs Follow-up", 0.6)
    ensures FallbackFor(last).fields["summary"] == JArray([JString(Truncated(last))])
  {
  }
}
