/**
 * The health-prediction edge function (supabase/functions/predict-health/index.ts): it checks
 * that the request names every nutrient and demographic field, forwards the request unchanged
 * to the external risk-model service, and maps that service's answer to a response.
 */
module PredictHealth {
  import opened Options
  import opened Text
  import opened Json

  /** The fields the risk model needs, in the order they are checked. */
  const RequiredFields: seq<string> := [
    "gender", "age", "energy", "protein", "fat", "carbs", "sugar",
    "sodium_mg", "calcium_mg", "vitaminc_mg"
  ]

  const RateLimitedMessage: string := "요청이 너무 많습니다. 잠시 후 다시 시도해주세요."

  const PredictionFailedMessage: string := "예측 중 오류가 발생했습니다. 잠시 후 다시 시도해 주세요."

  /** `input[field]` is neither undefined nor null (input itself is not null). */
  predicate Present(input: Json, field: string) {
    var v := Get(input, Name(field));
    v.Some? && v.value != JNull
  }

  /** The first of the fields that is not present in the input, if any. */
  function FirstMissing(input: Json, fields: seq<string>): (r: Option<string>)
    ensures r.None? <==> forall i :: 0 <= i < |fields| ==> Present(input, fields[i])
    ensures r.Some? ==> exists i :: (0 <= i < |fields| && fields[i] == r.value
      && !Present(input, fields[i])
      && forall j :: 0 <= j < i ==> Present(input, fields[j]))
  {
    if fields == [] then None
    else if !Present(input, fields[0]) then Some(fields[0])
    else
      var r := FirstMissing(input, fields[1..]);
      assert r.Some? ==> exists i :: (1 <= i < |fields| && fields[i] == r.value
        && !Present(input, fields[i])
        && forall j :: 1 <= j < i ==> Present(input, fields[j]));
      r
  }

  function MissingFieldMessage(field: string): string {
    "Missing required field: " + field
  }

  /**
   * The message of the error the validation loop throws, None when it completes: reading a
   * field of a null input throws a TypeError at the first field; otherwise the first missing
   * field is named.
   */
  function InputError(input: Json): (r: Option<string>)
    ensures r.None? <==> input != JNull && forall i :: 0 <= i < |RequiredFields| ==> Present(input, RequiredFields[i])
    ensures input == JNull ==> r == Some(ReadErrorMessage("null", Name(RequiredFields[0])))
  {
    if input == JNull then Some(ReadErrorMessage("null", Name(RequiredFields[0])))
    else
      match FirstMissing(input, RequiredFields)
      case None => None
      case Some(field) => Some(MissingFieldMessage(field))
  }

  /** The validation loop over the required fields. */
  method Validate(input: Json) returns (error: Option<string>)
    ensures error == InputError(input)
  {
    for i := 0 to |RequiredFields|
      invariant i > 0 ==> input != JNull
      invariant forall j :: 0 <= j < i ==> Present(input, RequiredFields[j])
    {
      var field := RequiredFields[i];
      if input == JNull {
        return Some(ReadErrorMessage("null", Name(field)));
      }
      var value := Get(input, Name(field));
      if value.None? || value == Some(JNull) {
        assert FirstMissing(input, RequiredFields) == Some(field) by {
          FirstMissingAt(input, RequiredFields, i);
        }
        return Some(MissingFieldMessage(field));
      }
    }
    return None;
  }

  /** When the fields before position i are present and the one at i is not, it is the one reported. */
  lemma {:induction false} FirstMissingAt(input: Json, fields: seq<string>, i: nat)
    requires i < |fields| && !Present(input, fields[i])
    requires forall j :: 0 <= j < i ==> Present(input, fields[j])
    ensures FirstMissing(input, fields) == Some(fields[i])
  {
    if i > 0 {
      FirstMissingAt(input, fields[1..], i - 1);
    }
  }

  /** Falsy values such as 0, false and "" count as present; only a missing key or null does not. */
  lemma FalsyValuesArePresent(fields: map<string, Json>, field: string)
    requires field in fields
    ensures fields[field] in {JNumber(0.0), JBool(false), JString("")} ==> Present(JObject(fields), field)
    ensures !Present(JObject(fields), field) <==> fields[field] == JNull
  {
  }

  /** The request names the first missing field of the fixed order, whatever else is missing. */
  lemma ErrorNamesFirstMissing(input: Json, i: nat)
    requires input != JNull && i < |RequiredFields| && !Present(input, RequiredFields[i])
    requires forall j :: 0 <= j < i ==> Present(input, RequiredFields[j])
    ensures InputError(input) == Some("Missing required field: " + RequiredFields[i])
  {
    FirstMissingAt(input, RequiredFields, i);
  }

  /**
   * How the call to the risk-model service ends: the fetch throws, or a reply with its
   * status, the outcome of reading its text (read only when the status is not ok) and its
   * parsed body (read only when it is).
   */
  datatype Upstream =
    | FetchFailed(message: string)
    | Replied(status: nat, text: Result<string, string>, body: Parse)

  predicate IsOk(status: nat) {
    200 <= status <= 299
  }

  /** The catch block: 500 with the generic message and the error's message as details. */
  function FailureResponse(details: string): Response {
    JsonResponse(500, StringObject(map["error" := PredictionFailedMessage, "details" := details]))
  }

  const RateLimitedResponse: Response := JsonResponse(429, StringObject(map["error" := RateLimitedMessage]))

  /**
   * The handler. It returns the response and the body it forwarded to the risk-model service
   * (None when it made no call).
   */
  method Serve(httpMethod: string, request: Parse, upstream: Upstream) returns (response: Response, forwarded: Option<Json>)
    ensures httpMethod == "OPTIONS" ==> response == Preflight && forwarded == None
    ensures forwarded.Some? <==>
      httpMethod != "OPTIONS" && request.Parsed? && InputError(request.value).None?
    ensures forwarded.Some? ==> forwarded.value == request.value
    ensures httpMethod != "OPTIONS" && request.Unparsable? ==> response == FailureResponse(request.message)
    ensures httpMethod != "OPTIONS" && request.Parsed? && InputError(request.value).Some? ==>
      response == FailureResponse(InputError(request.value).value)
    ensures forwarded.Some? ==>
      match upstream
      case FetchFailed(message) => response == FailureResponse(message)
      case Replied(status, text, body) =>
        if !IsOk(status) then
          match text
          case Err(message) => response == FailureResponse(message)
          case Ok(errorText) =>
            if status == 429 then response == RateLimitedResponse
            else response == FailureResponse("Python API returned " + NatToDecimal(status) + ": " + errorText)
        else
          match body
          case Unparsable(message) => response == FailureResponse(message)
          case Parsed(data) => response == JsonResponse(200, data)
    ensures response.status in {200, 429, 500}
    ensures response.status == 429 <==>
      forwarded.Some? && upstream.Replied? && upstream.status == 429 && upstream.text.Ok?
  {
    forwarded := None;
    if httpMethod == "OPTIONS" {
      return Preflight, None;
    }
    if request.Unparsable? {
      return FailureResponse(request.message), None;
    }
    var input := request.value;
    var error := Validate(input);
    if error.Some? {
      return FailureResponse(error.value), None;
    }
    forwarded := Some(input);
    match upstream {
      case FetchFailed(message) =>
        response := FailureResponse(message);
      case Replied(status, text, body) =>
        if !IsOk(status) {
          match text {
            case Err(message) =>
              response := FailureResponse(message);
            case Ok(errorText) =>
              if status == 429 {
                response := RateLimitedResponse;
              } else {
                response := FailureResponse("Python API returned " + NatToDecimal(status) + ": " + errorText);
              }
          }
        } else {
          match body {
            case Unparsable(message) => response := FailureResponse(message);
            case Parsed(data) => response := JsonResponse(200, data);
          }
        }
    }
  }
}
