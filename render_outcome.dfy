/**
 * How `serialize` and `screenshot` turn the navigation's main response into a
 * result: the missing-response and compute-metadata guards, the 304 rule and
 * the meta-tag status override, and the `ScreenshotError` they throw.
 */
module RenderOutcome {
  import opened Wrappers
  import opened Respond

  /** What the handlers read of the main response: its status and headers. */
  datatype PageResponse = PageResponse(status: int, headers: Headers)

  /** `SerializedResponse`. */
  datatype SerializedResponse = SerializedResponse(status: int, content: string)

  /**
   * The value read from `<meta name="render:status_code" content="...">`:
   * no tag (the lookup's rejection becomes `undefined`), a content that
   * `parseInt` cannot read (`NaN`), or a parsed integer.
   */
  datatype MetaStatus = Absent | NotANumber | Number(n: int)

  /** JavaScript truthiness of the override: only a non-zero number is truthy. */
  predicate IsTruthy(meta: MetaStatus) {
    meta.Number? && meta.n != 0
  }

  /** `response.headers()['metadata-flavor'] === 'Google'`. */
  predicate IsComputeMetadata(response: PageResponse) {
    "metadata-flavor" in response.headers && response.headers["metadata-flavor"] == "Google"
  }

  /**
   * The status `serialize` reports for a response that passed both guards.
   * 200 and 304 both end up as 200 unless a truthy override replaces them;
   * every other status is kept whatever the override says.
   */
  function FinalStatus(original: int, meta: MetaStatus): (status: int)
    ensures original == 200 || original == 304 ==> status == (if IsTruthy(meta) then meta.n else 200)
    ensures original != 200 && original != 304 ==> status == original
  {
    var statusCode := if original == 304 then 200 else original;
    if statusCode == 200 && IsTruthy(meta) then meta.n else statusCode
  }

  /**
   * The result of `serialize` for the captured main response, the override
   * read from the page and the serialised document. Both guards answer with
   * empty content before any status logic runs.
   */
  function Serialize(response: Option<PageResponse>, meta: MetaStatus, content: string): (r: SerializedResponse)
    ensures response.None? ==> r == SerializedResponse(400, "")
    ensures response.Some? && IsComputeMetadata(response.value) ==> r == SerializedResponse(403, "")
    ensures response.Some? && !IsComputeMetadata(response.value) ==>
              r.content == content && r.status == FinalStatus(response.value.status, meta)
  {
    match response
    case None => SerializedResponse(400, "")
    case Some(res) =>
      if IsComputeMetadata(res) then SerializedResponse(403, "")
      else SerializedResponse(FinalStatus(res.status, meta), content)
  }

  /**
   * An override of 404 turns a 200 into a 404 but leaves a 500 alone; a 304
   * without an override becomes 200; a zero or unreadable override changes
   * nothing.
   */
  lemma StatusExamples(headers: Headers, content: string)
    requires !("metadata-flavor" in headers && headers["metadata-flavor"] == "Google")
    ensures Serialize(Some(PageResponse(200, headers)), Number(404), content).status == 404
    ensures Serialize(Some(PageResponse(500, headers)), Number(404), content).status == 500
    ensures Serialize(Some(PageResponse(304, headers)), Absent, content).status == 200
    ensures Serialize(Some(PageResponse(304, headers)), Number(404), content).status == 404
    ensures Serialize(Some(PageResponse(200, headers)), Number(0), content).status == 200
    ensures Serialize(Some(PageResponse(200, headers)), NotANumber, content).status == 200
  {
  }

  /** `ErrorType`. */
  datatype ErrorType = Forbidden | NoResponse

  function ErrorTypeName(t: ErrorType): string {
    match t
    case Forbidden => "Forbidden"
    case NoResponse => "NoResponse"
  }

  /** A `ScreenshotError`: its `name`, its `message` (passed to `Error`) and its `type`. */
  datatype ScreenshotError = ScreenshotError(name: string, message: string, errorType: ErrorType)

  /** `new ScreenshotError(type)`. */
  function NewScreenshotError(t: ErrorType): (e: ScreenshotError)
    ensures e.errorType == t
    ensures e.message == ErrorTypeName(t)
    ensures e.name == "ScreenshotError"
  {
    ScreenshotError("ScreenshotError", ErrorTypeName(t), t)
  }

  /**
   * The outcome of `screenshot`: the two guards throw, in the same order as in
   * `serialize`; otherwise the captured image is returned.
   */
  function Screenshot(response: Option<PageResponse>, image: seq<byte>): (r: Result<seq<byte>, ScreenshotError>)
    ensures response.None? ==> r == Failure(NewScreenshotError(NoResponse))
    ensures response.Some? && IsComputeMetadata(response.value) ==> r == Failure(NewScreenshotError(Forbidden))
    ensures response.Some? && !IsComputeMetadata(response.value) ==> r == Success(image)
  {
    match response
    case None => Failure(NewScreenshotError(NoResponse))
    case Some(res) =>
      if IsComputeMetadata(res) then Failure(NewScreenshotError(Forbidden))
      else Success(image)
  }

  /**
   * `screenshot` fails exactly when `serialize` would answer from a guard, and
   * each error kind corresponds to the guard's status: `NoResponse` to 400 and
   * `Forbidden` to 403, both with empty content.
   */
  lemma {:induction false} ScreenshotErrorsMatchSerializeGuards(
    response: Option<PageResponse>, meta: MetaStatus, content: string, image: seq<byte>)
    ensures Screenshot(response, image).Failure? <==> response.None? || IsComputeMetadata(response.value)
    ensures Screenshot(response, image) == Failure(NewScreenshotError(NoResponse)) <==> response.None?
    ensures Screenshot(response, image).Failure? ==>
              && Serialize(response, meta, content).content == ""
              && Serialize(response, meta, content).status ==
                   (if Screenshot(response, image).error.errorType == NoResponse then 400 else 403)
    ensures Screenshot(response, image).Success? ==> Serialize(response, meta, content).content == content
  {
    if response.Some? {
      assert NewScreenshotError(Forbidden) != NewScreenshotError(NoResponse);
    }
  }

  /** How `page.goto` ended: with a response or `null`, or by throwing (a timeout, say). */
  datatype Navigation = Returned(response: Option<PageResponse>) | Threw

  /**
   * The main response `serialize` works with: the `response` listener keeps the
   * first response it sees, and a `goto` that returns overwrites it with its
   * own result, `null` included; a `goto` that throws leaves the listener's.
   * `screenshot` has no listener: its `seen` is empty.
   */
  method CaptureMainResponse(seen: seq<PageResponse>, navigation: Navigation) returns (response: Option<PageResponse>)
    ensures navigation.Returned? ==> response == navigation.response
    ensures navigation.Threw? && seen != [] ==> response == Some(seen[0])
    ensures navigation.Threw? && seen == [] ==> response == None
  {
    response := None;
    for i := 0 to |seen|
      invariant response == if i == 0 then None else Some(seen[0])
    {
      if response.None? {
        response := Some(seen[i]);
      }
    }
    if navigation.Returned? {
      response := navigation.response;
    }
  }
}
