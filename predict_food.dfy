/**
 * The food-identification edge function (supabase/functions/predict/index.ts): it takes an
 * uploaded photo, sends it as a data URL to a vision model with a list of twenty dishes, and
 * answers with the trimmed name the model gives back. A chain of guards gives every way the
 * request can end its own status: 500 for a missing credential, 400 for a missing file, 500
 * for a failed call, 502 for an empty answer and 200 with the name.
 */
module FoodIdentification {
  import opened Options
  import opened Text
  import opened Json

  /** An uploaded file: its name, its MIME type (`file.type`) and its bytes. */
  datatype File = File(name: string, mime: string, bytes: seq<bv8>)

  /** What `formData.get("file")` gives: nothing, a plain text value, or a file. */
  datatype FormField = Absent | TextValue(value: string) | Upload(file: File)

  /** `await req.formData()`: the form's `file` entry, or the message of the error thrown. */
  datatype FormParse = FormUnreadable(message: string) | Form(file: FormField)

  /**
   * How the call to the vision model ends: the fetch throws, or a reply with its status, the
   * outcome of reading its text (read only when the status is not ok) and its parsed body
   * (read only when it is).
   */
  datatype VisionReply = VisionFailed(message: string) | VisionReplied(status: nat, text: Result<string, string>, body: Parse)

  const ConfigErrorMessage: string := "서버 설정 오류입니다."

  const MissingFileMessage: string := "이미지 파일을 업로드해주세요."

  const AnalysisFailedMessage: string := "AI 분석 중 오류가 발생했습니다."

  const NoResultMessage: string := "OpenAI 응답에서 결과를 찾지 못했습니다."

  /** The TypeError thrown when the content is present but is not a string, so has no trim method. */
  const TrimNotFunctionMessage: string := "openaiData.choices?.[0]?.message?.content?.trim is not a function"

  const VisionModel: string := "gpt-4o-mini"

  const VisionMaxTokens: nat := 50

  /** The dishes the prompt asks the model to choose from, in the order it numbers them. */
  const FoodCandidates: seq<string> := [
    "된장찌개", "치킨", "커피", "김치찌개", "불고기", "비빔밥", "삼겹살", "김밥", "라면", "떡볶이",
    "순대", "피자", "햄버거", "스테이크", "파스타", "샐러드", "초밥", "우동", "카레", "만두"
  ]

  /** The answer the prompt asks for when the photo shows none of the candidates. */
  const NoMatchAnswer: string := "해당 사항 없음"

  // ---------------------------------------------------------------------------
  // The data URL of the photo

  const DataScheme: string := "data:"

  const Base64Marker: string := ";base64"

  /** `data:${file.type};base64,${base64Image}`. */
  function DataUrl(mime: string, payload: string): (url: string)
    ensures OccursAt(url, DataScheme, 0) && OccursAt(url, mime + Base64Marker + ",", |DataScheme|)
    ensures |payload| <= |url| && url[|url| - |payload|..] == payload
  {
    DataScheme + mime + Base64Marker + "," + payload
  }

  /**
   * Reads a base64 data URL back, as section 2 of RFC 2397 lays it out: the media type runs
   * from after "data:" to the first comma, less a final ";base64"; the data is what follows
   * that comma.
   */
  function ParseDataUrl(url: string): (r: Option<(string, string)>)
    ensures r.Some? ==> |DataScheme| <= |url| && url[..|DataScheme|] == DataScheme
  {
    if |url| < |DataScheme| || url[..|DataScheme|] != DataScheme then None
    else
      match IndexFrom(url, ",", |DataScheme|)
      case None => None
      case Some(comma) =>
        var meta := url[|DataScheme|..comma];
        if |meta| >= |Base64Marker| && meta[|meta| - |Base64Marker|..] == Base64Marker then
          Some((meta[..|meta| - |Base64Marker|], url[comma + 1..]))
        else None
  }

  /** A media type without a comma and any payload come back out of the URL built from them. */
  lemma DataUrlRoundTrip(mime: string, payload: string)
    requires forall m :: 0 <= m < |mime| ==> mime[m] != ','
    ensures ParseDataUrl(DataUrl(mime, payload)) == Some((mime, payload))
  {
    var url := DataUrl(mime, payload);
    var comma := |DataScheme| + |mime| + |Base64Marker|;
    assert url[..|DataScheme|] == DataScheme;
    assert url[comma] == ',';
    assert OccursAt(url, ",", comma);
    forall k | |DataScheme| <= k < comma
      ensures !OccursAt(url, ",", k)
    {
      if k < |DataScheme| + |mime| {
        assert url[k] == mime[k - |DataScheme|];
      } else {
        assert url[k] == Base64Marker[k - |DataScheme| - |mime|];
      }
    }
    assert IndexFrom(url, ",", |DataScheme|) == Some(comma);
    var meta := url[|DataScheme|..comma];
    assert meta == mime + Base64Marker;
    assert meta[|meta| - |Base64Marker|..] == Base64Marker;
    assert meta[..|meta| - |Base64Marker|] == mime;
    assert url[comma + 1..] == payload;
  }

  // ---------------------------------------------------------------------------
  // Reading the model's answer

  /**
   * `openaiData.choices?.[0]?.message?.content`: only the first step is a plain read, which
   * throws when the parsed body is null; the later steps give undefined (None) instead.
   */
  function Content(data: Json): (r: Result<Option<Json>, string>)
    ensures r.Err? <==> data == JNull
    ensures r.Err? ==> r.error == ReadErrorMessage("null", Name("choices"))
    ensures data != JNull ==>
      var choices := Get(data, Name("choices"));
      var choice := if Defined(choices) then Get(choices.value, Index(0)) else None;
      var message := if Defined(choice) then Get(choice.value, Name("message")) else None;
      r == Ok(if Defined(message) then Get(message.value, Name("content")) else None)
  {
    match Read(Some(data), Name("choices"))
    case Err(e) => Err(e)
    case Ok(choices) =>
      Ok(ReadOptional(ReadOptional(ReadOptional(choices, Index(0)), Name("message")), Name("content")))
  }

  /** What `content?.trim()` and the test `!foodName` make of the answer. */
  datatype Verdict = Food(name: string) | NoResult | Thrown(message: string)

  /** All characters of s are white space, so nothing is left after trimming. */
  predicate Blank(s: string) {
    forall m :: 0 <= m < |s| ==> IsJsWhitespace(s[m])
  }

  /**
   * The verdict on the content: a food name exactly when the content is a string that is not
   * blank, and then its trimmed text, which is non-empty and trimmed already; no result when
   * the content is undefined, null or blank; the TypeError of a missing trim method otherwise.
   */
  function FoodOf(content: Option<Json>): (v: Verdict)
    ensures v.Food? <==> (content.Some? && content.value.JString? && !Blank(content.value.s))
    ensures v.Food? ==> v.name == Trim(content.value.s) && v.name != [] && Trim(v.name) == v.name
    ensures v.NoResult? <==>
      (content.None? || content == Some(JNull) || (content.value.JString? && Blank(content.value.s)))
    ensures v.Thrown? ==> v.message == TrimNotFunctionMessage
  {
    match content
    case None => NoResult
    case Some(JNull) => NoResult
    case Some(JString(s)) =>
      TrimEmptyIff(s);
      TrimIdempotent(s);
      if Trim(s) == [] then NoResult else Food(Trim(s))
    case Some(_) => Thrown(TrimNotFunctionMessage)
  }

  /**
   * The verdict on a parsed answer: the trimmed content as the name exactly when the content
   * is a string that is not blank; a TypeError when the answer is null or the content is
   * neither undefined, null nor a string; no result otherwise.
   */
  function ReadFood(data: Json): (v: Verdict)
    ensures
      var c := Content(data);
      && (v.Food? <==> c.Ok? && c.value.Some? && c.value.value.JString? && !Blank(c.value.value.s))
      && (v.Food? ==> v.name == Trim(c.value.value.s))
      && (v.Thrown? <==> data == JNull || (c.value.Some? && c.value.value != JNull && !c.value.value.JString?))
      && (v.Thrown? ==> v.message == if data == JNull then ReadErrorMessage("null", Name("choices")) else TrimNotFunctionMessage)
  {
    match Content(data)
    case Err(e) => Thrown(e)
    case Ok(content) => FoodOf(content)
  }

  // ---------------------------------------------------------------------------
  // The handler

  /**
   * The request sent to the vision model: one user message whose text part is the fixed
   * prompt listing FoodCandidates and whose image part is the data URL of the photo.
   */
  datatype VisionCall = VisionCall(apiKey: string, model: string, imageUrl: string, maxTokens: nat)

  /** The handler's response and the call it made, if any. */
  datatype Identification = Identification(response: Response, call: Option<VisionCall>)

  function DetailResponse(status: nat, detail: string): (r: Response)
    ensures r.status == status
  {
    JsonResponse(status, StringObject(map["detail" := detail]))
  }

  function FoodResponse(name: string): (r: Response)
    ensures r.status == 200
  {
    JsonResponse(200, StringObject(map["food" := name]))
  }

  /** What the vision model's reply turns into. */
  function ReplyResponse(reply: VisionReply): (r: Response)
    ensures r.status in {200, 500, 502}
    ensures reply.VisionFailed? ==> r == DetailResponse(500, reply.message)
    ensures reply.VisionReplied? && 200 <= reply.status <= 299 && reply.body.Unparsable? ==>
      r == DetailResponse(500, reply.body.message)
    ensures reply.VisionReplied? && !(200 <= reply.status <= 299) ==>
      r == DetailResponse(500, if reply.text.Err? then reply.text.error else AnalysisFailedMessage)
  {
    match reply
    case VisionFailed(message) => DetailResponse(500, message)
    case VisionReplied(status, text, body) =>
      if !(200 <= status <= 299) then
        match text
        case Err(message) => DetailResponse(500, message)
        case Ok(_) => DetailResponse(500, AnalysisFailedMessage)
      else
        match body
        case Unparsable(message) => DetailResponse(500, message)
        case Parsed(data) =>
          match ReadFood(data)
          case Food(name) => FoodResponse(name)
          case NoResult => DetailResponse(502, NoResultMessage)
          case Thrown(message) => DetailResponse(500, message)
  }

  /**
   * The handler: preflight, then the credential, then the form, then the file, then its
   * encoding, then the call. `encode` stands for reading the file and base64-encoding its
   * bytes, with the message of the error it may throw.
   */
  function Identify(
    httpMethod: string,
    apiKey: Option<string>,
    form: FormParse,
    encode: seq<bv8> -> Result<string, string>,
    reply: VisionReply): (out: Identification)
    ensures out.call.Some? <==>
      && httpMethod != "OPTIONS" && apiKey.Some? && apiKey.value != ""
      && form.Form? && form.file.Upload? && encode(form.file.file.bytes).Ok?
    ensures out.call.Some? ==>
      out.call.value == VisionCall(apiKey.value, VisionModel,
        DataUrl(form.file.file.mime, encode(form.file.file.bytes).value), VisionMaxTokens)
    ensures out.call.Some? ==> out.response == ReplyResponse(reply)
    ensures httpMethod != "OPTIONS" && apiKey.Some? && apiKey.value != "" && form.FormUnreadable? ==>
      out == Identification(DetailResponse(500, form.message), None)
    ensures (httpMethod != "OPTIONS" && apiKey.Some? && apiKey.value != "" && form.Form? && form.file.Upload?
      && encode(form.file.file.bytes).Err?) ==>
      out == Identification(DetailResponse(500, encode(form.file.file.bytes).error), None)
    ensures out.response.status in {200, 400, 500, 502}
  {
    if httpMethod == "OPTIONS" then Identification(Preflight, None)
    else if apiKey.None? || apiKey.value == "" then Identification(DetailResponse(500, ConfigErrorMessage), None)
    else
      match form
      case FormUnreadable(message) => Identification(DetailResponse(500, message), None)
      case Form(field) =>
        if !field.Upload? then Identification(DetailResponse(400, MissingFileMessage), None)
        else
          match encode(field.file.bytes)
          case Err(message) => Identification(DetailResponse(500, message), None)
          case Ok(payload) =>
            var url := DataUrl(field.file.mime, payload);
            Identification(ReplyResponse(reply), Some(VisionCall(apiKey.value, VisionModel, url, VisionMaxTokens)))
  }

  // ---------------------------------------------------------------------------
  // Properties of the handler

  /** A preflight gets the CORS headers and no body, whatever else the request holds. */
  lemma PreflightAnswersAtOnce(
    apiKey: Option<string>, form: FormParse, encode: seq<bv8> -> Result<string, string>, reply: VisionReply)
    ensures Identify("OPTIONS", apiKey, form, encode, reply) == Identification(Preflight, None)
    ensures Preflight.body == NoBody && Preflight.headers == CorsHeaders
  {
  }

  /** Without a credential the answer is the configuration error, decided before the form is read. */
  lemma MissingKeyBeforeForm(
    httpMethod: string, apiKey: Option<string>, form1: FormParse, form2: FormParse,
    encode: seq<bv8> -> Result<string, string>, reply: VisionReply)
    requires httpMethod != "OPTIONS" && (apiKey.None? || apiKey == Some(""))
    ensures Identify(httpMethod, apiKey, form1, encode, reply) == Identify(httpMethod, apiKey, form2, encode, reply)
    ensures Identify(httpMethod, apiKey, form1, encode, reply) ==
      Identification(DetailResponse(500, ConfigErrorMessage), None)
  {
  }

  /** A form without a file entry, or with a text value under "file", gets a 400 and no call. */
  lemma MissingFileIsRejected(
    httpMethod: string, apiKey: string, field: FormField,
    encode: seq<bv8> -> Result<string, string>, reply: VisionReply)
    requires httpMethod != "OPTIONS" && apiKey != "" && !field.Upload?
    ensures Identify(httpMethod, Some(apiKey), Form(field), encode, reply) ==
      Identification(DetailResponse(400, MissingFileMessage), None)
  {
  }

  /**
   * Once the call is made, a status outside 200..299 gives a 500 with the analysis-failed
   * message, or with the message of the error thrown while reading the reply's text.
   */
  lemma UpstreamErrorFails(
    httpMethod: string, apiKey: string, file: File,
    encode: seq<bv8> -> Result<string, string>, status: nat, text: string, body: Parse)
    requires httpMethod != "OPTIONS" && apiKey != "" && encode(file.bytes).Ok?
    requires !(200 <= status <= 299)
    ensures Identify(httpMethod, Some(apiKey), Form(Upload(file)), encode, VisionReplied(status, Ok(text), body)).response
      == DetailResponse(500, AnalysisFailedMessage)
    ensures Identify(httpMethod, Some(apiKey), Form(Upload(file)), encode, VisionReplied(status, Err(text), body)).response
      == DetailResponse(500, text)
  {
  }

  /** An error thrown on the way (form, encoding, fetch, reply body) gives a 500 carrying its message. */
  lemma ThrownErrorsCarryMessage(
    httpMethod: string, apiKey: string, file: File,
    encode: seq<bv8> -> Result<string, string>, message: string, status: nat, text: Result<string, string>,
    reply: VisionReply)
    requires httpMethod != "OPTIONS" && apiKey != ""
    ensures Identify(httpMethod, Some(apiKey), FormUnreadable(message), encode, reply).response
      == DetailResponse(500, message)
    ensures encode(file.bytes) == Err(message) ==>
      Identify(httpMethod, Some(apiKey), Form(Upload(file)), encode, reply).response
        == DetailResponse(500, message)
    ensures encode(file.bytes).Ok? ==>
      Identify(httpMethod, Some(apiKey), Form(Upload(file)), encode, VisionFailed(message)).response
        == DetailResponse(500, message)
      && (200 <= status <= 299 ==>
        Identify(httpMethod, Some(apiKey), Form(Upload(file)), encode, VisionReplied(status, text, Unparsable(message))).response
          == DetailResponse(500, message))
  {
  }

  /**
   * A successful reply whose body parses: 200 with the food name exactly when the verdict is
   * a name, 502 exactly when there is no result, and 500 with the message of a thrown error.
   */
  lemma ReplyClassification(status: nat, text: Result<string, string>, data: Json)
    requires 200 <= status <= 299
    ensures
      var r := ReplyResponse(VisionReplied(status, text, Parsed(data)));
      && (r.status == 200 <==> ReadFood(data).Food?)
      && (r.status == 502 <==> ReadFood(data).NoResult?)
      && (ReadFood(data).Food? ==> r == FoodResponse(ReadFood(data).name))
      && (ReadFood(data).NoResult? ==> r == DetailResponse(502, NoResultMessage))
      && (ReadFood(data).Thrown? ==> r == DetailResponse(500, ReadFood(data).message))
  {
  }

  /** The reply body of a successful call whose first choice's message has the given content. */
  function ReplyWithContent(content: Json): Json {
    JObject(map["choices" := JArray([JObject(map["message" := JObject(map["content" := content])])])])
  }

  /** The content of such a reply is read back as it was put in. */
  lemma ContentOf(content: Json)
    ensures Content(ReplyWithContent(content)) == Ok(Some(content))
  {
    assert KeyText(Index(0)) == "0";
  }

  /**
   * For string content: the trimmed text as the food name exactly when the content is not
   * blank, and no result otherwise, so an empty name is never returned.
   */
  lemma AnswerIsTrimmedContent(content: string)
    ensures Blank(content) ==> ReadFood(ReplyWithContent(JString(content))) == NoResult
    ensures !Blank(content) ==> ReadFood(ReplyWithContent(JString(content))) == Food(Trim(content))
    ensures !Blank(content) ==> Trim(content) != [] && Trim(Trim(content)) == Trim(content)
  {
    ContentOf(JString(content));
  }

  /** A reply whose choices are missing, null or an empty list gives no result. */
  lemma NoChoicesIsNoResult(fields: map<string, Json>)
    requires "choices" !in fields || fields["choices"] in {JNull, JArray([])}
    ensures ReadFood(JObject(fields)) == NoResult
  {
  }

  /** Content that is null gives no result. */
  lemma NullContentIsNoResult()
    ensures ReadFood(ReplyWithContent(JNull)) == NoResult
  {
    ContentOf(JNull);
  }

  /** Content that is not a string has no trim method: the call throws a TypeError. */
  lemma NonStringContentThrows(content: Json)
    requires content.JNumber? || content.JBool? || content.JArray? || content.JObject?
    ensures ReadFood(ReplyWithContent(content)) == Thrown(TrimNotFunctionMessage)
  {
    ContentOf(content);
  }

  /** A reply body of null throws at the first, plain read. */
  lemma NullReplyThrows()
    ensures ReadFood(JNull) == Thrown(ReadErrorMessage("null", Name("choices")))
  {
  }

  /**
   * The name is not checked against the candidates: the no-match answer, which is not one of
   * them, comes back as the food name like any other text, once trimmed.
   */
  lemma AnswerIsNotChecked(padding: string, answer: string)
    requires Blank(padding) && answer != [] && !IsJsWhitespace(answer[0]) && !IsJsWhitespace(answer[|answer| - 1])
    ensures ReadFood(ReplyWithContent(JString(padding + answer + padding))) == Food(answer)
  {
    var text := padding + answer + padding;
    ContentOf(JString(text));
    assert text[|padding|] == answer[0];
    TrimAround(padding, answer, padding);
  }

  /** The no-match answer is not among the candidates. */
  lemma NoMatchAnswerIsNoCandidate()
    ensures NoMatchAnswer !in FoodCandidates
    ensures |FoodCandidates| == 20
  {
  }

  /** A reply carrying the no-match answer, with any whitespace around it, is a success like any other. */
  lemma NoMatchAnswerPassesThrough(padding: string)
    requires Blank(padding)
    ensures ReadFood(ReplyWithContent(JString(padding + NoMatchAnswer + padding))) == Food(NoMatchAnswer)
  {
    var answer := NoMatchAnswer;
    assert answer[0] == '해' && answer[|answer| - 1] == '음';
    AnswerIsNotChecked(padding, answer);
  }
}
