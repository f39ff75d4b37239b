/**
 * What a request handler can do with an intercepted request, and the record
 * it answers with (puppeteer's `RespondOptions`).
 */
module Respond {
  import opened Wrappers

  /** A byte of a response body. */
  newtype byte = x: int | 0 <= x < 256

  type Headers = map<string, string>

  /**
   * `RespondOptions`: a placeholder carries only `contentType` and `body`; a
   * cached response also carries `headers` and `status`.
   */
  datatype RespondOptions = RespondOptions(
    status: Option<int>,
    headers: Option<Headers>,
    contentType: string,
    body: seq<byte>)

  /**
   * The one driver call a request handler makes per request. `respond` appears
   * twice so that a placeholder answer can be told apart from a cached one;
   * `ContinueThenCache` is a `continue()` after which a cache write is pending.
   */
  datatype Action =
    | RespondPlaceholder(options: RespondOptions)
    | RespondCached(options: RespondOptions)
    | Abort
    | Continue
    | ContinueThenCache
  {
    /** True when the request is answered with `respond`. */
    predicate IsRespond() {
      RespondPlaceholder? || RespondCached?
    }

    /** True when the request is passed on with `continue`. */
    predicate IsContinue() {
      Continue? || ContinueThenCache?
    }
  }

  /** A live response as seen by the cache write-back. */
  datatype LiveResponse = LiveResponse(
    url: string,
    status: int,
    headers: Headers,
    body: seq<byte>)

  /**
   * `headers && headers['content-type'] ? headers['content-type'] : 'text/html'`:
   * a missing or empty header (empty strings are falsy) gives the default.
   */
  function ContentTypeOf(headers: Headers): (t: string)
    ensures "content-type" in headers && headers["content-type"] != "" ==> t == headers["content-type"]
    ensures "content-type" !in headers || headers["content-type"] == "" ==> t == "text/html"
    ensures t != ""
  {
    if "content-type" in headers && headers["content-type"] != "" then headers["content-type"]
    else "text/html"
  }

  /** The record both variants store for a completed response. */
  function CacheRecord(response: LiveResponse): (r: RespondOptions)
    ensures r.status == Some(response.status)
    ensures r.headers == Some(response.headers)
    ensures r.body == response.body
    ensures r.contentType == ContentTypeOf(response.headers)
  {
    RespondOptions(Some(response.status), Some(response.headers), ContentTypeOf(response.headers), response.body)
  }
}
