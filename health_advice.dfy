/**
 * The health-advice edge function (supabase/functions/generate-health-advice/index.ts): for a
 * disease whose predicted risk is at least 0.4 it asks a text-generation service for a few
 * sentences of dietary advice; below that threshold it answers with empty advice at once.
 */
module HealthAdvice {
  import opened Options
  import opened Text
  import opened Json

  datatype Impact = Increase | Decrease

  /** One explanation entry of the risk model: a feature, its weight and its direction. */
  datatype TopFactor = TopFactor(feature: string, value: real, impact: Impact)

  datatype AdviceRequest = AdviceRequest(disease: string, risk: real, topFactors: seq<TopFactor>)

  /** `await req.json()` and its destructuring: a request, or the message of the error thrown. */
  datatype RequestBody = Unreadable(message: string) | Readable(request: AdviceRequest)

  /** Below this risk no advice is generated. */
  const AdviceThreshold: real := 0.4

  const AdviceFailedMessage: string := "조언 생성 중 오류가 발생했습니다."

  const MissingKeyMessage: string := "OPENAI_API_KEY not configured"

  const ChatModel: string := "gpt-4o-mini"

  const SystemMessage: string := "당신은 한국어로 답하는 전문 영양사이자 가정의학과 전문의입니다."

  const Temperature: real := 0.7

  const MaxTokens: nat := 500

  // The fixed text of the user prompt, between the places where the disease name, the risk,
  // the serialized top factors and the disease name again are inserted.

  const PromptRole: string :=
    "역할: 너는 한국어로 답하는 전문 영양사 + 가정의학과 전문의이다.\n\n아래는 어떤 사용자의 건강 위험도 예측 결과 중, 한 질환에 대한 정보이다.\n\n- 질환명: "

  const PromptRiskLabel: string :=
    "\n- 예측 위험도 (0~1): "

  const PromptFactorsLabel: string :=
    "\n- 중요 요인 (SHAP Top Factors, risk >= 0.4 인 경우만 제공됨):\n  "

  const PromptInstructions: string :=
    "\n\n설명:\n- value가 클수록 해당 피처가 이번 예측에서 중요했다는 의미이다.\n- impact = \"increase\" 는 이 섭취 패턴이 해당 질환 위험도를 \"올리는 방향\"으로 작용했다는 뜻이다.\n- impact = \"decrease\" 는 이 섭취 패턴이 위험도를 \"낮추는 방향\"으로 작용했다는 뜻이다.\n\n요청 사항:\n1. 사용자가 보기 쉽게, **짧고 명확한 한글 문장 2~4개**로만 답해라.\n2. \"현재 "

  const PromptRules: string :=
    " 위험도가 어느 정도인지\"를 한 문장으로 먼저 요약해라. (예: \"현재 당뇨병 위험도는 비교적 높은 편입니다.\")\n3. 이어서, top_factors를 기반으로 **구체적인 식단/생활습관 추천 2~3가지**를 써라.\n   - impact = \"increase\" 인 피처에 대해서는: \"이것을 줄이거나 조절하라\"는 방향의 권고\n   - impact = \"decrease\" 인 피처에 대해서는: \"이 패턴을 유지하거나 조금 더 강화해도 좋다\"는 방향의 권고\n4. 숫자/용어는 일반인 기준으로 이해하기 쉽게 설명하되, 너무 장황하게 쓰지 마라.\n5. \"칼로리 2,000kcal\" 같은 구체 숫자가 필요하면, top_factors와 질환 특성을 상식적인 범위 안에서 추론해서 사용해도 된다.\n6. 반말/명령조가 아니라, 존댓말과 권유형 어조(\"~하시는 게 좋겠습니다\")로 작성해라.\n\n주의:\n- JSON 그대로를 다시 출력하지 마라.\n- bullet 포인트를 쓴다면 2~3개까지만 사용해라.\n- 의료 진단이 아니라 \"생활습관/식습관 조언\"이라는 뉘앙스를 유지해라."

  /** The fixed pieces of a prompt template with holes for a disease, a risk and the factors. */
  datatype Template = Template(
    role: string,
    riskLabel: string,
    factorsLabel: string,
    instructions: string,
    rules: string)

  const AdviceTemplate: Template :=
    Template(PromptRole, PromptRiskLabel, PromptFactorsLabel, PromptInstructions, PromptRules)

  /** The pieces of a template literal in order: fixed text and the values put into its holes. */
  function Pieces(t: Template, disease: string, riskText: string, factorsText: string): (pieces: seq<string>)
    ensures |pieces| == 9
  {
    [t.role, disease, t.riskLabel, riskText, t.factorsLabel, factorsText, t.instructions, disease, t.rules]
  }

  /**
   * The template filled in: it carries the disease name twice, the risk text and the
   * serialized top factors, each right after its label, at the places the pieces before it end.
   */
  function Fill(t: Template, disease: string, riskText: string, factorsText: string): (p: string)
    ensures
      var pieces := Pieces(t, disease, riskText, factorsText);
      && OccursAt(p, t.role + disease, 0)
      && OccursAt(p, t.riskLabel + riskText, |Join(pieces[..2])|)
      && OccursAt(p, t.factorsLabel + factorsText, |Join(pieces[..4])|)
      && OccursAt(p, t.instructions + disease, |Join(pieces[..6])|)
      && OccursAt(p, t.rules, |Join(pieces[..8])|) && |p| == |Join(pieces[..8])| + |t.rules|
  {
    var pieces := Pieces(t, disease, riskText, factorsText);
    JoinPair(pieces, 0);
    JoinPair(pieces, 2);
    JoinPair(pieces, 4);
    JoinPair(pieces, 6);
    JoinPiece(pieces, 8);
    JoinSplit(pieces, 8);
    assert pieces[9..] == [];
    Join(pieces)
  }

  /**
   * The user prompt for a disease, the text of its risk (Number#toString) and the JSON text of
   * its top factors (JSON.stringify with an indent of 2).
   */
  function Prompt(disease: string, riskText: string, factorsText: string): string {
    Fill(AdviceTemplate, disease, riskText, factorsText)
  }

  /**
   * The request sent to the chat-completions endpoint, with the values its user prompt is
   * made from: the disease name, the risk text and the serialized top factors. The user
   * message is `Prompt(disease, riskText, factorsText)`.
   */
  datatype ChatCall = ChatCall(
    apiKey: string,
    model: string,
    system: string,
    disease: string,
    riskText: string,
    factorsText: string,
    temperature: real,
    maxTokens: nat)

  /**
   * How that request ends: the fetch throws, or a reply with its status, the outcome of
   * reading its text (`response.text()`, read only when the status is not ok) and its parsed
   * body (read only when it is).
   */
  datatype ChatReply = ChatFailed(message: string) | ChatReplied(status: nat, text: Result<string, string>, body: Parse)

  /** The handler's response and the call it made, if any. */
  datatype Outcome = Outcome(response: Response, call: Option<ChatCall>)

  function ErrorResponse(details: string): Response {
    JsonResponse(500, StringObject(map["error" := AdviceFailedMessage, "details" := details]))
  }

  /** `{ advice }` under JSON.stringify: the member is left out when advice is undefined. */
  function AdviceBody(advice: Option<Json>): (body: Json)
    ensures body.JObject? && body.fields.Keys <= {"advice"}
    ensures "advice" in body.fields <==> advice.Some?
    ensures advice.Some? ==> body.fields["advice"] == advice.value
  {
    match advice
    case None => JObject(map[])
    case Some(v) => JObject(map["advice" := v])
  }

  const NoAdvice: Response := JsonResponse(200, AdviceBody(Some(JString(""))))

  /**
   * `data.choices[0].message.content`: the content of the first choice's message (None when
   * that member is undefined), or the TypeError thrown when a step reads from undefined or null.
   */
  function FirstChoiceContent(data: Json): (r: Result<Option<Json>, string>)
    ensures
      var choices := Get(data, Name("choices"));
      var choice := if Defined(choices) then Get(choices.value, Index(0)) else None;
      var message := if Defined(choice) then Get(choice.value, Name("message")) else None;
      && (r.Ok? <==> data != JNull && Defined(choices) && Defined(choice) && Defined(message))
      && (r.Ok? ==> r.value == Get(message.value, Name("content")))
    ensures data == JNull ==> r == Err(ReadErrorMessage("null", Name("choices")))
  {
    match Read(Some(data), Name("choices"))
    case Err(e) => Err(e)
    case Ok(choices) =>
      match Read(choices, Index(0))
      case Err(e) => Err(e)
      case Ok(choice) =>
        match Read(choice, Name("message"))
        case Err(e) => Err(e)
        case Ok(message) => Read(message, Name("content"))
  }

  predicate IsOk(status: nat) {
    200 <= status <= 299
  }

  /**
   * What the call's reply turns into: 200 with the first choice's content as the advice
   * exactly when the status is ok, the body parses and the path to that content reads; a 500
   * carrying the error's message otherwise.
   */
  function ReplyResponse(reply: ChatReply): (r: Response)
    ensures r.status in {200, 500}
    ensures r.status == 200 <==>
      reply.ChatReplied? && IsOk(reply.status) && reply.body.Parsed? && FirstChoiceContent(reply.body.value).Ok?
    ensures r.status == 200 ==> r == JsonResponse(200, AdviceBody(FirstChoiceContent(reply.body.value).value))
    ensures reply.ChatFailed? ==> r == ErrorResponse(reply.message)
    ensures reply.ChatReplied? && IsOk(reply.status) && reply.body.Unparsable? ==> r == ErrorResponse(reply.body.message)
    ensures reply.ChatReplied? && IsOk(reply.status) && reply.body.Parsed? && FirstChoiceContent(reply.body.value).Err? ==>
      r == ErrorResponse(FirstChoiceContent(reply.body.value).error)
    ensures reply.ChatReplied? && !IsOk(reply.status) ==>
      r == ErrorResponse(match reply.text
        case Err(message) => message
        case Ok(_) => "OpenAI API returned " + NatToDecimal(reply.status))
  {
    match reply
    case ChatFailed(message) => ErrorResponse(message)
    case ChatReplied(status, text, body) =>
      if !IsOk(status) then
        match text
        case Err(message) => ErrorResponse(message)
        case Ok(_) => ErrorResponse("OpenAI API returned " + NatToDecimal(status))
      else
        match body
        case Unparsable(message) => ErrorResponse(message)
        case Parsed(data) =>
          match FirstChoiceContent(data)
          case Err(message) => ErrorResponse(message)
          case Ok(advice) => JsonResponse(200, AdviceBody(advice))
  }

  /**
   * The handler: preflight, then the request, then the risk gate, then the credential, then
   * the call. `formatNumber` and `serialize` stand for the runtime's number and JSON formatting.
   */
  function Handle(
    httpMethod: string,
    body: RequestBody,
    apiKey: Option<string>,
    formatNumber: real -> string,
    serialize: seq<TopFactor> -> string,
    reply: ChatReply): (out: Outcome)
    ensures out.call.Some? <==>
      && httpMethod != "OPTIONS" && body.Readable?
      && body.request.risk >= AdviceThreshold
      && apiKey.Some? && apiKey.value != ""
    ensures httpMethod == "OPTIONS" ==> out == Outcome(Preflight, None)
    ensures httpMethod != "OPTIONS" && body.Unreadable? ==> out == Outcome(ErrorResponse(body.message), None)
    ensures out.call.Some? ==> out.response == ReplyResponse(reply)
    ensures out.call.Some? ==>
      out.call.value == ChatCall(apiKey.value, ChatModel, SystemMessage, body.request.disease,
        formatNumber(body.request.risk), serialize(body.request.topFactors), Temperature, MaxTokens)
  {
    if httpMethod == "OPTIONS" then Outcome(Preflight, None)
    else
      match body
      case Unreadable(message) => Outcome(ErrorResponse(message), None)
      case Readable(request) =>
        if request.risk < AdviceThreshold then Outcome(NoAdvice, None)
        else if apiKey.None? || apiKey.value == "" then Outcome(ErrorResponse(MissingKeyMessage), None)
        else
          var call := ChatCall(apiKey.value, ChatModel, SystemMessage,
            request.disease, formatNumber(request.risk), serialize(request.topFactors), Temperature, MaxTokens);
          Outcome(ReplyResponse(reply), Some(call))
  }

  // ---------------------------------------------------------------------------
  // Properties of the handler

  /** Below the threshold the answer is empty advice, with no call and without looking at the credential. */
  lemma LowRiskAnswersAtOnce(
    httpMethod: string, request: AdviceRequest, apiKey: Option<string>,
    formatNumber: real -> string, serialize: seq<TopFactor> -> string, reply: ChatReply)
    requires httpMethod != "OPTIONS" && request.risk < AdviceThreshold
    ensures Handle(httpMethod, Readable(request), apiKey, formatNumber, serialize, reply) == Outcome(NoAdvice, None)
    ensures NoAdvice.status == 200 && NoAdvice.body == JsonBody(JObject(map["advice" := JString("")]))
  {
  }

  /** The threshold itself generates advice: 0.39 makes no call, 0.4 does. */
  lemma ThresholdIsInclusive(
    disease: string, factors: seq<TopFactor>, apiKey: string,
    formatNumber: real -> string, serialize: seq<TopFactor> -> string, reply: ChatReply)
    requires apiKey != ""
    ensures Handle("POST", Readable(AdviceRequest(disease, 0.39, factors)), Some(apiKey), formatNumber, serialize, reply).call.None?
    ensures Handle("POST", Readable(AdviceRequest(disease, 0.4, factors)), Some(apiKey), formatNumber, serialize, reply).call.Some?
  {
  }

  /** At or above the threshold a missing or empty credential gives a 500 with the error body. */
  lemma MissingKeyFails(
    httpMethod: string, request: AdviceRequest, apiKey: Option<string>,
    formatNumber: real -> string, serialize: seq<TopFactor> -> string, reply: ChatReply)
    requires httpMethod != "OPTIONS" && request.risk >= AdviceThreshold
    requires apiKey.None? || apiKey == Some("")
    ensures Handle(httpMethod, Readable(request), apiKey, formatNumber, serialize, reply)
      == Outcome(ErrorResponse(MissingKeyMessage), None)
    ensures ErrorResponse(MissingKeyMessage).status == 500
  {
  }

  /**
   * Once the call is made, a status outside 200..299 gives a 500 naming that status, or the
   * message of the error thrown while reading the reply's text.
   */
  lemma UpstreamErrorFails(
    httpMethod: string, request: AdviceRequest, apiKey: string,
    formatNumber: real -> string, serialize: seq<TopFactor> -> string, status: nat, text: string, body: Parse)
    requires httpMethod != "OPTIONS" && request.risk >= AdviceThreshold && apiKey != ""
    requires !IsOk(status)
    ensures Handle(httpMethod, Readable(request), Some(apiKey), formatNumber, serialize, ChatReplied(status, Ok(text), body)).response
      == ErrorResponse("OpenAI API returned " + NatToDecimal(status))
    ensures Handle(httpMethod, Readable(request), Some(apiKey), formatNumber, serialize, ChatReplied(status, Err(text), body)).response
      == ErrorResponse(text)
  {
  }

  /**
   * On success the advice is the content of the first choice's message, whatever else the
   * reply, the choice and the message hold; with no content member the body is `{}`.
   */
  lemma AdviceIsFirstChoice(
    httpMethod: string, request: AdviceRequest, apiKey: string,
    formatNumber: real -> string, serialize: seq<TopFactor> -> string,
    status: nat, text: Result<string, string>, data: Json)
    requires httpMethod != "OPTIONS" && request.risk >= AdviceThreshold && apiKey != ""
    requires IsOk(status)
    requires Defined(Get(data, Name("choices")))
    requires Defined(Get(Get(data, Name("choices")).value, Index(0)))
    requires Defined(Get(Get(Get(data, Name("choices")).value, Index(0)).value, Name("message")))
    ensures
      var message := Get(Get(Get(data, Name("choices")).value, Index(0)).value, Name("message")).value;
      var response := Handle(httpMethod, Readable(request), Some(apiKey), formatNumber, serialize,
        ChatReplied(status, text, Parsed(data))).response;
      && (Get(message, Name("content")).Some? ==>
        response == JsonResponse(200, JObject(map["advice" := Get(message, Name("content")).value])))
      && (Get(message, Name("content")).None? ==> response == JsonResponse(200, JObject(map[])))
  {
  }

  /** Every response is the preflight, a 200 or a 500. */
  lemma StatusIsKnown(
    httpMethod: string, body: RequestBody, apiKey: Option<string>,
    formatNumber: real -> string, serialize: seq<TopFactor> -> string, reply: ChatReply)
    ensures Handle(httpMethod, body, apiKey, formatNumber, serialize, reply).response.status in {200, 500}
  {
  }
}
