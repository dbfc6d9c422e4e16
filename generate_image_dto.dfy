/**
 * `GenerateImageDto` under the validation pipe: which bodies are accepted, and the request an
 * accepted body becomes once the defaults of `size` and `n` are filled in.
 */
module GenerateImageDto {
  import opened Wrappers
  import opened Http

  const DefaultSize := "1024x1024"
  const DefaultCount := 1
  const Sizes: set<string> := {"1024x1024", "1792x1024", "1024x1792"}
  const Fields: set<string> := {"prompt", "size", "n", "theme"}

  /** A body value is an integer number. */
  predicate IsInt(v: Json) {
    v.JNumber? && v.n.Floor as real == v.n
  }

  /** A validated request; `null` for `size`, `n` or `theme` is `None`. */
  datatype GenerateImageRequest = GenerateImageRequest(prompt: string, size: Option<string>, n: Option<int>, theme: Option<string>)

  /** `prompt`: a string (`@IsString`) that is not empty (`@IsNotEmpty`). */
  predicate PromptValid(body: map<string, Json>) {
    "prompt" in body && body["prompt"].JString? && body["prompt"].s != ""
  }

  /** `size`: absent or `null`, or one of the three sizes. */
  predicate SizeValid(body: map<string, Json>) {
    "size" !in body || body["size"].JNull? || (body["size"].JString? && body["size"].s in Sizes)
  }

  /** `n`: absent or `null`, or an integer from 1 to 10. */
  predicate CountValid(body: map<string, Json>) {
    "n" !in body || body["n"].JNull? || (IsInt(body["n"]) && 1.0 <= body["n"].n <= 10.0)
  }

  /** `theme`: absent or `null`, or a string. */
  predicate ThemeValid(body: map<string, Json>) {
    "theme" !in body || body["theme"].JNull? || body["theme"].JString?
  }

  predicate BodyValid(body: map<string, Json>) {
    (forall k :: k in body ==> k in Fields) && PromptValid(body) && SizeValid(body) && CountValid(body) && ThemeValid(body)
  }

  /** The request of a valid body: an absent `size` or `n` takes its initializer's default. */
  function RequestOf(body: map<string, Json>): GenerateImageRequest
    requires BodyValid(body)
  {
    GenerateImageRequest(
      body["prompt"].s,
      if "size" !in body then Some(DefaultSize) else if body["size"].JNull? then None else Some(body["size"].s),
      if "n" !in body then Some(DefaultCount) else if body["n"].JNull? then None else Some(body["n"].n.Floor),
      if "theme" !in body || body["theme"].JNull? then None else Some(body["theme"].s))
  }

  /** The pipe: 400 unless every check passes. */
  function Validate(body: map<string, Json>): (r: Result<GenerateImageRequest, HttpError>)
    ensures r.Success? <==> BodyValid(body)
    ensures r.Failure? ==> r.error.status == BadRequest
    ensures r.Success? ==>
              r.value.prompt != ""
              && (r.value.size.Some? ==> r.value.size.value in Sizes)
              && (r.value.n.Some? ==> 1 <= r.value.n.value <= 10)
    ensures r.Success? ==> r.value.prompt == body["prompt"].s
    ensures r.Success? ==>
              && ("size" !in body ==> r.value.size == Some(DefaultSize))
              && ("size" in body && body["size"].JNull? ==> r.value.size.None?)
              && ("size" in body && body["size"].JString? ==> r.value.size == Some(body["size"].s))
    ensures r.Success? ==>
              && ("n" !in body ==> r.value.n == Some(DefaultCount))
              && ("n" in body && body["n"].JNull? ==> r.value.n.None?)
              && ("n" in body && body["n"].JNumber? ==> r.value.n.Some? && r.value.n.value as real == body["n"].n)
    ensures r.Success? ==>
              && ("theme" !in body || body["theme"].JNull? ==> r.value.theme.None?)
              && ("theme" in body && body["theme"].JString? ==> r.value.theme == Some(body["theme"].s))
  {
    if BodyValid(body) then Success(RequestOf(body)) else Failure(HttpError(BadRequest, "Bad Request"))
  }

  /** A body with just a prompt asks for one image of the default size. */
  lemma {:induction false} DefaultsApply(prompt: string)
    requires prompt != ""
    ensures Validate(map["prompt" := JString(prompt)]) == Success(GenerateImageRequest(prompt, Some("1024x1024"), Some(1), None))
  {
    var body := map["prompt" := JString(prompt)];
    assert BodyValid(body);
  }

  /** An empty or missing prompt is refused. */
  lemma {:induction false} PromptRequired(body: map<string, Json>)
    requires "prompt" !in body || body["prompt"] == JString("")
    ensures Validate(body).Failure?
  {
  }

  /** A count is accepted exactly when it is an integer from 1 to 10. */
  lemma {:induction false} CountAcceptedIff(prompt: string, x: real)
    requires prompt != ""
    ensures Validate(map["prompt" := JString(prompt), "n" := JNumber(x)]).Success?
            <==> x.Floor as real == x && 1.0 <= x <= 10.0
  {
    var body := map["prompt" := JString(prompt), "n" := JNumber(x)];
    assert "size" !in body && "theme" !in body;
    assert forall k :: k in body ==> k in Fields;
  }

  /** A size is accepted exactly when it is one of the three. */
  lemma {:induction false} SizeAcceptedIff(prompt: string, size: string)
    requires prompt != ""
    ensures Validate(map["prompt" := JString(prompt), "size" := JString(size)]).Success? <==> size in Sizes
  {
    var body := map["prompt" := JString(prompt), "size" := JString(size)];
    assert "n" !in body && "theme" !in body;
    assert forall k :: k in body ==> k in Fields;
  }
}
