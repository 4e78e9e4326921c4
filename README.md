# sonju: the diet ledger and the edge functions, modelled in Dafny

sonju is a web application: a user photographs a meal, and the app names the food, stores a
meal log, adds up the day's calories against a daily budget, and asks an external risk model
and a text-generation service for disease risks and dietary advice. This project models the
parts of the repository that are exact rules rather than plumbing, and proves what they promise:

- **Diet** (`diet.dfy`, the "my diet" page): the consumed-calorie fold over the meal logs, the
  capped budget percentage and the card that shows it, and the deletion of a meal log. Deletion
  removes the stored image best-effort, deletes the row and filters the in-memory list.
- **PredictHealth** (`predict_health.dfy`, the `predict-health` edge function): the loop over
  the ten required fields, the forwarding of the request unchanged, and the mapping of the
  risk-model service's answer to 200, 429 or 500.
- **HealthAdvice** (`health_advice.dfy`, the `generate-health-advice` edge function): the
  0.4 risk gate, which comes before the credential check; the prompt template; the extraction
  of the first choice's content; and the mapping of errors to 500.
- **FoodIdentification** (`predict_food.dfy`, the `predict` edge function): the guard chain over
  the credential, the uploaded file, the vision model's status and the trimmed answer. It
  answers 500, 400, 500, 502 or 200. The module also builds the photo's data URL and reads it back.
- **Diseases** (`diseases.dfy`): the seven-entry disease catalog, its distinct ids, and the
  copy without concerns that the `diseases-meta` function serves.
- Support modules:
  - `options.dfy`: Option and Result.
  - `text.dfy`: what the handlers use of JavaScript's strings. This covers the ASCII `\d`,
    parseInt of a digit run, Number#toString of a natural number, `split(sep)[1]`, and
    `String.prototype.trim` with the ECMAScript white-space set.
  - `json.dfy`: JSON values, plain and optional-chaining property reads with V8's TypeError
    wording, and responses with the CORS headers.

Every network, storage and database call is a parameter of the handler that makes it. Its
outcome is a datatype: the fetch throws, or it replies with a status, the outcome of reading
its text (which can throw too) and a parsed or unparsable body. Handlers report the calls they make (`ChatCall`, `VisionCall`, the forwarded
body, the steps of `HandleDelete`), so "no call is made" is a statement about their results.
The environment's API key is an `Option<string>` parameter. Number and JSON formatting are
function parameters.

The code and the repository's own description disagree in a few places; this model follows the
code:
- The description speaks of a three-line food/risk/calorie response parser, feature scaling and
  a four-stage classifier cascade. None of these is in the code. The `predict` function returns
  only `{ food }`. Risk scoring happens in an external service that `predict-health` forwards to.
- The description says a storage failure must not block the deletion of the log. In the code
  only an error *returned* by the storage call is logged and passed over. An exception *thrown*
  by that call skips the row delete (`HandleDelete`'s `StorageThrows` case).
- The description says a "no match" answer can be told apart from a parse failure. The code does
  not check the answer against the candidate list at all: the no-match answer comes back as a
  food name like any other text.

## Model

| member | source | states |
|---|---|---|
| Text.FirstDigitRun | src/pages/MyDiet.tsx:55 | `/(\d+)/` finds the first maximal run of ASCII digits: none exactly when the text has no digit, otherwise a non-empty run with no digit before it and none right after |
| Text.FirstDigitRunOf | src/pages/MyDiet.tsx:55 | a text of non-digits, then digits, then a non-digit or the end has its match exactly on those digits |
| Text.NatToDecimal | supabase/functions/predict-health/index.ts:64 | a status in a template literal is a non-empty decimal numeral with no leading zero that reads back as the number |
| Text.DecimalValue | src/pages/MyDiet.tsx:56 | parseInt of a digit string: 0 for the empty string, and the last digit is the value modulo 10 |
| Text.SecondField | src/pages/MyDiet.tsx:89 | `split(sep)[1]` is undefined exactly when sep does not occur; otherwise it runs from after the first occurrence to the next occurrence or the end |
| Text.SecondFieldOf | src/pages/MyDiet.tsx:89 | base + sep + key, where sep first occurs after base and key holds no sep, splits to key |
| Text.Trim | supabase/functions/predict/index.ts:130 | `trim()` never lengthens a text; the lemmas below say what it cuts |
| Text.TrimIsSlice | supabase/functions/predict/index.ts:130 | `trim()` gives a slice of the text, and everything cut from either end is ECMAScript white space |
| Text.TrimBorders | supabase/functions/predict/index.ts:130 | a non-empty trimmed text starts and ends with a character that is not white space |
| Text.TrimEmptyIff | supabase/functions/predict/index.ts:130-132 | the trimmed text is empty exactly when every character is white space |
| Text.TrimIdempotent | supabase/functions/predict/index.ts:130 | trimming twice is trimming once |
| Text.TrimAround | supabase/functions/predict/index.ts:130 | a text with non-blank ends, padded with white space on both sides, trims back to itself |
| Text.JoinPiece | supabase/functions/generate-health-advice/index.ts:43-70 | each piece of a template literal occurs in the result where the pieces before it end |
| Json.Read | supabase/functions/generate-health-advice/index.ts:96 | a plain property read throws exactly on undefined or null and otherwise gives the member, element or undefined |
| Json.Get | supabase/functions/predict/index.ts:130 | a property read on a defined value: only objects, arrays and strings have members; an object gives exactly the member under the key, an array the element at an index below its length and nothing for a name, a string the one-character string at an index below its length |
| Json.ReadOptional | supabase/functions/predict/index.ts:130 | optional chaining is the plain read with its throw turned into undefined: undefined wherever `Read` throws, and `Read`'s value wherever it does not |
| Json.JsonResponse | supabase/functions/predict/index.ts:147-150 | a JSON response carries its status and its body; its headers are exactly the two CORS headers, with their values, and `Content-Type: application/json` |
| Diet.LogCalories | src/pages/MyDiet.tsx:53-56 | a log with null calories, or with a calorie text that has no digit, contributes 0; FirstNumberCounts gives the value otherwise |
| Diet.ReduceCalories | src/pages/MyDiet.tsx:52-57 | the reduce fold never ends below its start |
| Diet.ReduceIsSum | src/pages/MyDiet.tsx:51-57 | the reduce fold from any start equals the start plus the sum of each log's contribution |
| Diet.ConsumedCalories | src/pages/MyDiet.tsx:51-58 | calculateConsumedCalories is the sum over all logs of what each contributes |
| Diet.SumConcat | src/pages/MyDiet.tsx:52-57 | the sum over two lists joined is the sum of their sums |
| Diet.SumRemoveAt | src/pages/MyDiet.tsx:52-57 | the sum is one log's contribution plus the sum over the others |
| Diet.SumPermutation | src/pages/MyDiet.tsx:52-57 | any two lists holding the same logs have the same sum |
| Diet.ConsumedOrderIndependent | src/pages/MyDiet.tsx:52-57 | the consumed total does not depend on the order of the logs |
| Diet.FirstNumberCounts | src/pages/MyDiet.tsx:53-56 | a log contributes the value of its first digit run, whatever follows it |
| Diet.NoDigitsCountZero | src/pages/MyDiet.tsx:55-56 | a calorie text without a digit contributes 0 instead of failing |
| Diet.DecimalExamples | src/pages/MyDiet.tsx:56 | parseInt reads "550" as 550 and "420" as 420 |
| Diet.ApproximateCalories | src/pages/MyDiet.tsx:54-56 | "약 550 kcal" contributes 550 |
| Diet.SuffixedCalories | src/pages/MyDiet.tsx:54-56 | "420kcal" contributes 420 |
| Diet.ConsumedExample | src/pages/MyDiet.tsx:51-57 | "약 550 kcal", "420kcal" and a log without calories add up to 970 |
| Diet.RoundedQuotient | src/pages/MyDiet.tsx:61 | Math.round of an exact quotient: the integer r with r <= n/d + 1/2 < r + 1, for either sign of d |
| Diet.CaloriePercentage | src/pages/MyDiet.tsx:61 | the percentage is never above 100, is 0 when the budget is null or 0, and is not negative for a positive budget |
| Diet.PercentageOfPositiveBudget | src/pages/MyDiet.tsx:61 | for a positive budget the percentage lies in [0, 100], is 100 exactly when consumed is at least 99.5% of the budget, and below 100 is the rounded percentage itself |
| Diet.BannerFor | src/pages/MyDiet.tsx:131-177 | the over-budget message exactly above 100, the reached message exactly at 100, none below |
| Diet.BudgetView | src/pages/MyDiet.tsx:131-177 | the card is hidden exactly when the budget is null or 0; when shown it holds the budget, the sum of the logs' calories and their percentage, is styled red exactly when the percentage is above 100, and shows the message `BannerFor` gives |
| Diet.OverBudgetUnreachable | src/pages/MyDiet.tsx:131-177 | when the card is shown, the red styling and the over-budget message never appear, and the reached message shows exactly at 100 |
| Diet.StoragePath | src/pages/MyDiet.tsx:89-92 | a storage key is used only when non-empty and holds no marker; a URL without the marker yields none |
| Diet.StoragePathUpToNextMarker | src/pages/MyDiet.tsx:89-92 | the key is the text between the first marker and the next marker or the end, whatever follows that next marker; an empty key gives no path |
| Diet.StoragePathOfPublicUrl | src/pages/MyDiet.tsx:89 | a public object URL base + marker + key yields the key when the marker first occurs after base |
| Diet.RemoveId | src/pages/MyDiet.tsx:106 | the filtered list is no longer than the list and holds no log of that id |
| Diet.RemoveIdConcat | src/pages/MyDiet.tsx:106 | the filter works piecewise over a split list, so the kept logs stay in order |
| Diet.RemoveIdCounts | src/pages/MyDiet.tsx:106 | every log of that id is gone and every other log is kept as many times as it was there |
| Diet.RemoveIdAbsent | src/pages/MyDiet.tsx:106 | a list without that id is unchanged |
| Diet.RemoveIdLowersConsumed | src/pages/MyDiet.tsx:52-106 | deleting logs never raises the consumed total |
| Diet.DeleteSteps | src/pages/MyDiet.tsx:86-119 | the trace of handleDelete: the image removal first and at most once, a returned storage error logged right after it, the row delete at most once and only when the removal did not throw, right before the toast; exactly one toast, last, which reports success exactly when the removal did not throw and the row was deleted |
| Diet.HandleDelete | src/pages/MyDiet.tsx:86-119 | the steps the handler takes are exactly `DeleteSteps` for the key the URL names and the two outcomes; the list loses every log of that id exactly when the removal did not throw and the row was deleted, and is unchanged otherwise |
| PredictHealth.FirstMissing | supabase/functions/predict-health/index.ts:31-35 | none exactly when every field is present; otherwise the first field that is undefined or null |
| PredictHealth.InputError | supabase/functions/predict-health/index.ts:15-35 | validation passes exactly when the input is not null and all ten fields are present; a null input throws the TypeError of reading "gender" |
| PredictHealth.Validate | supabase/functions/predict-health/index.ts:19-35 | the loop over the required fields returns exactly the error `InputError` defines: none, the TypeError of a null input, or the first missing field |
| PredictHealth.FirstMissingAt | supabase/functions/predict-health/index.ts:31-34 | when the fields before position i are present and the one at i is not, that one is reported |
| PredictHealth.FalsyValuesArePresent | supabase/functions/predict-health/index.ts:32 | 0, false and "" count as present; a field that is there is missing only when it is null |
| PredictHealth.ErrorNamesFirstMissing | supabase/functions/predict-health/index.ts:31-34 | the error names the first missing field of the fixed order, whatever else is missing |
| PredictHealth.Serve | supabase/functions/predict-health/index.ts:8-92 | OPTIONS gets the preflight; the body is forwarded unchanged exactly when it parses and validates; errors give 500 with the details; a non-ok reply whose text cannot be read gives 500 with that error; otherwise upstream 429 gives 429 and is the only way to get it, and other non-ok statuses give 500 naming the status and text; success returns the upstream JSON unchanged |
| HealthAdvice.FirstChoiceContent | supabase/functions/generate-health-advice/index.ts:95-96 | `data.choices[0].message.content` succeeds exactly when choices, its element 0 and that element's message are each defined and not null, and then gives the message's content member; a null reply throws the TypeError of reading "choices" |
| HealthAdvice.AdviceBody | supabase/functions/generate-health-advice/index.ts:98-101 | `{ advice }` under JSON.stringify has the advice member exactly when the advice is defined, with that value, and no other member |
| HealthAdvice.ReplyResponse | supabase/functions/generate-health-advice/index.ts:89-110 | 200 exactly when the status is ok, the body parses and the content path reads, with the first choice's content as the advice; a failed fetch, an unparsable body and a TypeError on the content path each give 500 with that error's message; a non-ok status gives 500 naming it, or the error of reading its text |
| HealthAdvice.Handle | supabase/functions/generate-health-advice/index.ts:20-112 | OPTIONS gets the preflight with no call; an unreadable request gets 500 with the error's message; a call is made exactly when the request reads, has risk at least 0.4 and a non-empty key, and it is then the exact request: that key, gpt-4o-mini, the system message, the disease, the risk text, the serialized factors, temperature 0.7 and 500 tokens; the response is what the reply turns into |
| HealthAdvice.LowRiskAnswersAtOnce | supabase/functions/generate-health-advice/index.ts:28-34 | below 0.4 the answer is 200 `{advice: ""}` with no call, whatever the credential |
| HealthAdvice.ThresholdIsInclusive | supabase/functions/generate-health-advice/index.ts:29 | risk 0.39 makes no call and risk 0.4 does |
| HealthAdvice.MissingKeyFails | supabase/functions/generate-health-advice/index.ts:36-110 | at or above 0.4 a missing or empty key gives 500 with the error body and no call |
| HealthAdvice.UpstreamErrorFails | supabase/functions/generate-health-advice/index.ts:89-110 | a non-ok status from the text service gives 500 naming that status, or carrying the error thrown while reading the reply's text |
| HealthAdvice.AdviceIsFirstChoice | supabase/functions/generate-health-advice/index.ts:95-101 | for any ok reply whose choices, first choice and message are defined, whatever else they hold, the handler answers 200 with the message's content as the advice, or `{}` when it has no content |
| HealthAdvice.StatusIsKnown | supabase/functions/generate-health-advice/index.ts:20-112 | every response has status 200 or 500 |
| HealthAdvice.Fill | supabase/functions/generate-health-advice/index.ts:43-70 | the filled template (the user prompt is this template filled) opens with the role text and the disease name, carries the risk text after its label and the serialized top factors after theirs, the disease name again after the instructions, and ends with the rules |
| FoodIdentification.DataUrl | supabase/functions/predict/index.ts:50 | the URL starts with "data:", then the media type, ";base64" and a comma, and ends with the payload |
| FoodIdentification.ParseDataUrl | supabase/functions/predict/index.ts:50 | a URL that reads as a base64 data URL starts with "data:" |
| FoodIdentification.DataUrlRoundTrip | supabase/functions/predict/index.ts:50 | a media type without a comma and any payload are read back from the URL built from them, as section 2 of RFC 2397 lays a data URL out |
| FoodIdentification.Content | supabase/functions/predict/index.ts:127-130 | reading the content throws exactly when the reply body is null, with the TypeError of reading "choices"; otherwise it is the first choice's message's content when choices, element 0 and message are each defined and not null, and undefined as soon as one of them is not |
| FoodIdentification.FoodOf | supabase/functions/predict/index.ts:130-143 | a food name exactly when the content is a string that is not blank, and then its trimmed text, non-empty and trimmed; no result exactly for undefined, null or blank content; a TypeError for other content |
| FoodIdentification.ReadFood | supabase/functions/predict/index.ts:127-143 | for any reply: the food is the trimmed content exactly when that content is a non-blank string; a TypeError exactly for a null reply (reading "choices") or content that is defined, not null and not a string (no trim); no result otherwise |
| FoodIdentification.ReplyResponse | supabase/functions/predict/index.ts:115-157 | the reply maps to 200, 500 or 502; a failed fetch and an ok body that does not parse give 500 with that error's message; a non-ok status gives 500 with the analysis-failed message, or with the error of reading the reply's text |
| FoodIdentification.Identify | supabase/functions/predict/index.ts:9-159 | a call is made exactly when the request is not a preflight, the key is non-empty, the form holds a file and it encodes; the call carries the key, the model, the data URL of the file and 50 tokens, and the response is then what the reply turns into; an unreadable form or a failed encoding gives 500 with its message and no call, whatever the reply; every status is 200, 400, 500 or 502 |
| FoodIdentification.PreflightAnswersAtOnce | supabase/functions/predict/index.ts:11-13 | OPTIONS gets the CORS headers with no body and no call |
| FoodIdentification.MissingKeyBeforeForm | supabase/functions/predict/index.ts:16-26 | without a key the answer is 500 "서버 설정 오류입니다." whatever the form holds, so the form is not read |
| FoodIdentification.MissingFileIsRejected | supabase/functions/predict/index.ts:30-41 | a missing file entry or a text value gives 400 with no call |
| FoodIdentification.UpstreamErrorFails | supabase/functions/predict/index.ts:115-125 | a non-ok status from the vision model gives 500 with the analysis-failed message, or with the error thrown while reading the reply's text |
| FoodIdentification.ThrownErrorsCarryMessage | supabase/functions/predict/index.ts:151-157 | an error thrown while reading the form or encoding the file gives 500 with its message for any reply; a failed fetch, or a body of any ok reply that does not parse, gives 500 with its message |
| FoodIdentification.ReplyClassification | supabase/functions/predict/index.ts:127-150 | after an ok reply that parses, the status is 200 exactly for a food name and 502 exactly for no result |
| FoodIdentification.ContentOf | supabase/functions/predict/index.ts:130 | the content of the first choice's message is read back as it was put in |
| FoodIdentification.AnswerIsTrimmedContent | supabase/functions/predict/index.ts:130-147 | string content gives its trimmed text as the food name when it is not blank, and no result when it is, so no empty name is returned |
| FoodIdentification.NoChoicesIsNoResult | supabase/functions/predict/index.ts:130-143 | missing, null or empty choices give no result |
| FoodIdentification.NullContentIsNoResult | supabase/functions/predict/index.ts:130-143 | null content gives no result |
| FoodIdentification.NonStringContentThrows | supabase/functions/predict/index.ts:130-157 | content that is a number, boolean, array or object throws a TypeError because it has no trim method |
| FoodIdentification.NullReplyThrows | supabase/functions/predict/index.ts:130-157 | a reply body of null throws at the plain read of choices |
| FoodIdentification.AnswerIsNotChecked | supabase/functions/predict/index.ts:130-147 | any answer with non-blank ends, padded with white space, comes back as the food name unchecked |
| FoodIdentification.NoMatchAnswerIsNoCandidate | supabase/functions/predict/index.ts:75-99 | the twenty dishes the prompt lists do not include the no-match answer |
| FoodIdentification.NoMatchAnswerPassesThrough | supabase/functions/predict/index.ts:99-147 | the no-match answer, with any white space around it, is returned as a food name |
| Diseases.Ids | supabase/functions/_shared/diseases.ts:8-51 | the ids of the entries, in order |
| Diseases.Lookup | supabase/functions/_shared/diseases.ts:8-51 | none exactly when no entry has the id; otherwise an entry of the list with that id |
| Diseases.LookupFindsEntry | supabase/functions/_shared/diseases.ts:8-51 | with distinct ids, looking up an entry's id gives that entry |
| Diseases.CatalogIds | supabase/functions/_shared/diseases.ts:8-51 | the catalog has seven entries: htn, dm, dyslipidemia, obesity, kidney, liver, gout, in that order |
| Diseases.CatalogIdsDistinct | supabase/functions/_shared/diseases.ts:8-51 | no two entries share an id |
| Diseases.CatalogLookup | supabase/functions/_shared/diseases.ts:8-51 | looking up any catalog entry's id gives that entry |
| Diseases.CatalogFieldsNonEmpty | supabase/functions/_shared/diseases.ts:1-51 | every entry has a non-empty id, name, description and concern |
| Diseases.MetaCatalogIsProjection | supabase/functions/diseases-meta/index.ts:14-22 | the served copy is the catalog with the concerns dropped, entry by entry in the same order |
| Diseases.MetaResponse | supabase/functions/diseases-meta/index.ts:8-30 | OPTIONS gets the preflight; otherwise 200 with the JSON headers and a body whose only member is `items`, listing every catalog entry without its concern, in order |

## Left out

- Harris-Benedict estimate of the daily budget (src/pages/MyDiet.tsx:31-48): floating-point coefficients. The budget is an input, `Option<int>`.
- Diet.CaloriePercentage: `consumed / daily * 100` is taken as an exact rational before rounding. The last-bit rounding of double arithmetic is not modelled.
- Diet.LogCalories: parseInt is exact here. Digit runs whose value exceeds 2^53 lose precision in JavaScript.
- Diet.HandleDelete: does not model the stale closure over `foodLogs` or concurrent deletions. React state is modelled as the returned list.
- Loading the meal logs (`loadFoodLogs`), the page's rendering beyond the budget card, and React printing "0" for a zero budget. These are UI.
- Locale date formatting (src/pages/MyDiet.tsx:205-211).
- HealthAdvice.Handle: assumes the request has the declared shape. A `risk` that is not a number, compared with JavaScript's coercions, is not modelled. The texts of the risk number and of the serialized factors are parameters.
- Base64 encoding via `btoa` and `String.fromCharCode(...bytes)`: a foreign call. It is the `encode` parameter. The RangeError that spreading a very large file can throw is its error case.
- FoodIdentification.VisionCall: does not hold the text part of the message (supabase/functions/predict/index.ts:71-99). That text is fixed; the model keeps only its twenty candidates (`FoodCandidates`) and its no-match answer, and the request's JSON layout is not modelled.
- HealthAdvice.Prompt: has no contract of its own, because the prompt's long literals make every proof that mentions them expensive. What it carries is stated by `Fill` for any template.
- The `instanceof Error` test in the catch blocks: every error the model throws is an Error, so the fallback texts for other thrown values are not modelled.
- Json.Get: string indexing counts Unicode scalar values. JavaScript counts UTF-16 code units; the two differ only outside the Basic Multilingual Plane.
- V8's wording of TypeError messages is taken as the runtime's. Other engines word them differently.
- Console logging in every handler: it has no effect on the responses.
- JSON object member order and the byte layout of JSON.stringify: objects are maps.
- The external risk-model service behind `predict-health`, and its parser, scaling and cascade. They are not in this repository.
- supabase/functions/generate-character/index.ts and the UI files (src/pages/Index.tsx, src/pages/Landing.tsx, src/App.tsx, src/contexts/UserInfoContext.tsx): image generation, uploads and routing, all I/O.
- Diseases.MetaResponse: the catch block of diseases-meta cannot be reached, because building a literal list does not throw.
