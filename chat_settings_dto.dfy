/**
 * `CreateChatSettingsDto` and `UpdateChatSettingsDto` under the application's validation pipe
 * (whitelisting, unknown properties rejected): which JSON bodies are accepted and the settings
 * patch an accepted body carries.
 */
module ChatSettingsDto {
  import opened Wrappers
  import opened Http
  import opened Text

  /** A closed interval `[lo, hi]`: `@Min(lo)` and `@Max(hi)` together. */
  datatype Range = Range(lo: real, hi: real)

  predicate InRange(x: real, r: Range) {
    r.lo <= x <= r.hi
  }

  const TemperatureRange := Range(0.0, 2.0)
  const MaxTokensRange := Range(1.0, 32768.0)
  const TopPRange := Range(0.0, 1.0)
  const TopKRange := Range(0.0, 1.0)
  const PenaltyRange := Range(-2.0, 2.0)

  const StringFields: set<string> := {"model", "systemPrompt"}
  const NumericFields: set<string> := {"temperature", "maxTokens", "topP", "topK", "frequencyPenalty", "presencePenalty"}
  /** The properties `UpdateChatSettingsDto` declares. */
  const UpdateFields: set<string> := StringFields + NumericFields
  /** The properties `CreateChatSettingsDto` declares: the same and `userId`. */
  const CreateFields: set<string> := UpdateFields + {"userId"}

  /** The interval each numeric property is checked against. */
  function RangeOf(field: string): Range
    requires field in NumericFields
  {
    if field == "temperature" then TemperatureRange
    else if field == "maxTokens" then MaxTokensRange
    else if field == "topP" then TopPRange
    else if field == "topK" then TopKRange
    else PenaltyRange
  }

  /**
   * One optional property's checks: `@IsOptional` lets `null` through, a string property needs
   * a string and a numeric one a number in its interval.
   */
  predicate OptionalFieldValid(field: string, v: Json)
    requires field in UpdateFields
  {
    v.JNull? || (field in StringFields && v.JString?) || (field in NumericFields && v.JNumber? && InRange(v.n, RangeOf(field)))
  }

  /** `@IsUUID()`: eight, four, four, four and twelve hexadecimal digits joined by hyphens. */
  predicate IsUuid(s: string) {
    |s| == 36
    && forall i :: 0 <= i < 36 ==>
         if i == 8 || i == 13 || i == 18 || i == 23 then s[i] == '-' else HexValue(s[i]).Some? || ('A' <= s[i] <= 'F')
  }

  /**
   * The settings an accepted body carries. An absent property is `None`. A `null` property is
   * `None` too, except `systemPrompt`, whose column is nullable: there `Some(None)` is a `null`
   * that `Object.assign` copies onto the row, and `Some(Some(p))` a prompt.
   */
  datatype SettingsPatch = SettingsPatch(
    model: Option<string>,
    systemPrompt: Option<Option<string>>,
    temperature: Option<real>,
    maxTokens: Option<real>,
    topP: Option<real>,
    topK: Option<real>,
    frequencyPenalty: Option<real>,
    presencePenalty: Option<real>)

  const EmptyPatch := SettingsPatch(None, None, None, None, None, None, None, None)

  datatype CreateSettingsDto = CreateSettingsDto(settings: SettingsPatch, userId: string)

  predicate OptionInRange(x: Option<real>, r: Range) {
    x.Some? ==> InRange(x.value, r)
  }

  /** Every numeric value the patch carries lies in its property's interval. */
  predicate PatchInRange(p: SettingsPatch) {
    OptionInRange(p.temperature, TemperatureRange)
    && OptionInRange(p.maxTokens, MaxTokensRange)
    && OptionInRange(p.topP, TopPRange)
    && OptionInRange(p.topK, TopKRange)
    && OptionInRange(p.frequencyPenalty, PenaltyRange)
    && OptionInRange(p.presencePenalty, PenaltyRange)
  }

  function StringAt(body: map<string, Json>, key: string): Option<string> {
    if key in body && body[key].JString? then Some(body[key].s) else None
  }

  /** `systemPrompt` as the patch holds it: absent, `null` or a string. */
  function NullableStringAt(body: map<string, Json>, key: string): (r: Option<Option<string>>)
    ensures key !in body ==> r.None?
    ensures key in body && body[key].JNull? ==> r == Some(None)
    ensures key in body && body[key].JString? ==> r == Some(Some(body[key].s))
  {
    if key !in body then None
    else if body[key].JString? then Some(Some(body[key].s))
    else if body[key].JNull? then Some(None)
    else None
  }

  function NumberAt(body: map<string, Json>, key: string): Option<real> {
    if key in body && body[key].JNumber? then Some(body[key].n) else None
  }

  function PatchOf(body: map<string, Json>): SettingsPatch {
    SettingsPatch(
      StringAt(body, "model"), NullableStringAt(body, "systemPrompt"),
      NumberAt(body, "temperature"), NumberAt(body, "maxTokens"),
      NumberAt(body, "topP"), NumberAt(body, "topK"),
      NumberAt(body, "frequencyPenalty"), NumberAt(body, "presencePenalty"))
  }

  /** Every property is declared by the DTO and passes its checks. */
  predicate UpdateBodyValid(body: map<string, Json>) {
    forall k :: k in body ==> k in UpdateFields && OptionalFieldValid(k, body[k])
  }

  predicate CreateBodyValid(body: map<string, Json>) {
    (forall k :: k in body ==> k in CreateFields && (k in UpdateFields ==> OptionalFieldValid(k, body[k])))
    && "userId" in body && body["userId"].JString? && IsUuid(body["userId"].s)
  }

  const ValidationFailed := HttpError(BadRequest, "Bad Request")

  /** The pipe on an `UpdateChatSettingsDto` body: 400, or the patch it carries, in range. */
  function ValidateUpdate(body: map<string, Json>): (r: Result<SettingsPatch, HttpError>)
    ensures r.Success? <==> UpdateBodyValid(body)
    ensures r.Failure? ==> r.error.status == BadRequest
    ensures r.Success? ==> r.value == PatchOf(body) && PatchInRange(r.value)
  {
    if UpdateBodyValid(body) then Success(PatchOf(body)) else Failure(ValidationFailed)
  }

  /** The pipe on a `CreateChatSettingsDto` body: 400, or the patch and the user id it carries. */
  function ValidateCreate(body: map<string, Json>): (r: Result<CreateSettingsDto, HttpError>)
    ensures r.Success? <==> CreateBodyValid(body)
    ensures r.Failure? ==> r.error.status == BadRequest
    ensures r.Success? ==> r.value.settings == PatchOf(body) && PatchInRange(r.value.settings)
                           && IsUuid(r.value.userId) && body["userId"] == JString(r.value.userId)
  {
    if CreateBodyValid(body) then Success(CreateSettingsDto(PatchOf(body), body["userId"].s)) else Failure(ValidationFailed)
  }

  /** A body holding one numeric property is accepted exactly when the value lies in the property's interval. */
  lemma {:induction false} NumericFieldAcceptedIff(field: string, x: real)
    requires field in NumericFields
    ensures ValidateUpdate(map[field := JNumber(x)]).Success? <==> InRange(x, RangeOf(field))
  {
    var body := map[field := JNumber(x)];
    if InRange(x, RangeOf(field)) {
      assert UpdateBodyValid(body);
    } else {
      assert !OptionalFieldValid(field, body[field]);
    }
  }

  /** The empty body is a valid update and changes nothing; it is not a valid create, which needs `userId`. */
  lemma AbsentFieldsAccepted()
    ensures ValidateUpdate(map[]) == Success(EmptyPatch)
    ensures ValidateCreate(map[]).Failure?
  {
  }

  /** `"systemPrompt": null` is a valid update that carries the `null` and nothing else. */
  lemma NullSystemPromptAccepted()
    ensures ValidateUpdate(map["systemPrompt" := JNull]) == Success(EmptyPatch.(systemPrompt := Some(None)))
  {
    var body := map["systemPrompt" := JNull];
    assert UpdateBodyValid(body);
  }

  /** Whitelisting: a property the DTO does not declare, `userId` included, fails an update. */
  lemma {:induction false} UnknownPropertyRejected(body: map<string, Json>, key: string)
    requires key in body && key !in UpdateFields
    ensures ValidateUpdate(body).Failure?
  {
  }
}
