# Rendertron request interception and render outcome, in Dafny

This project models three pieces of sequential logic from the rendering gateway:

- **Sub-request interception.** Rendering a page in headless Chrome makes sub-requests, and for each one the gateway picks a single driver call:
  - answer with a placeholder image;
  - abort it;
  - continue it;
  - answer from the cache;
  - continue it, then store the response in the cache.

  There are two variants of this decision:
  - the config-driven handler returned by `getInternalRequestCacheInterceptor` (module `Interceptor`);
  - the hard-wired handler that `Renderer.serialize` installs (module `LegacyRenderer`).

  Both pick a branch with string operations on the request URL (module `UrlText`):
  - `split('?')[0]`;
  - `split('.').pop()`;
  - `endsWith`.
- **The legacy response cache.** This is three fields of `Renderer`: a map, a write counter and the time the cache was last emptied. A full-flush rule governs them. The fields live in the class `LegacyRenderer.Renderer`, whose methods take the clock reading `now` as a parameter. Pure functions `FlushIfStale`, `Decide` and `Record` describe each transition. `Replay` folds those transitions over any interleaving of requests and write-backs.
- **Render outcome** (module `RenderOutcome`). `serialize` turns the captured main response into a status and content:
  - no response gives 400;
  - the compute-metadata header gives 403;
  - 304 becomes 200;
  - a meta-tag override applies only on 200.

  `screenshot` turns the same two guards into a `ScreenshotError`.

The module `Variants` compares the two handlers on image requests. The module `Respond` holds the values both handlers share: `RespondOptions`, the action datatype and the cache record built from a live response.

Regular expressions are abstract predicates `string -> bool`:
- `cacheUrlRegex`;
- `ALLOWED_URL_PATTERN`;
- `CACHE_URL_PATTERN`.

The `InMemoryLRUCache` the interceptor writes into is seen only through `get` and `set(key, value, ttl)`. It is modelled as a plain map from key to value and time-to-live.

Behaviour the proofs make explicit:
- The legacy handler looks entries up under the query-free URL. It writes them under `response.url()`, which keeps the query. So a request whose URL carries a query is never served by its own write-back (`LegacyRenderer.QueryUrlNeverHitsItsOwnWrite`).
- The legacy counter counts writes, not keys. An overwrite still increments it (`LegacyRenderer.OverwriteStillCounts`), so the counter only bounds the number of keys from above.
- On paths that contain a dot, and with the interceptor configured for `BLANK_PIXEL` and holding its setup table, the two handlers give a placeholder to exactly the same requests (`Variants.SamePlaceholderRequests`). Under `IGNORE` or `ALLOW` they differ: the interceptor aborts or continues `x.png`, while the legacy handler, which has no such option, still answers it with a placeholder. Even under `BLANK_PIXEL` they disagree on two content types:
  - `.jpg` is `image/jpg` in the interceptor and `image/jpeg` in the legacy handler;
  - `.svg` is `image/svg` in the interceptor and `image/png` in the legacy handler.

  A query-free part with no dot at all differs only in one narrow case: a URL whose query-free part has no `.` and is exactly `png`, `jpg`, `jpeg`, `gif` or `svg` (`png` itself, or `png?x.y`). Its `split('.').pop()` is the whole query-free part, so the interceptor answers it with a placeholder and the legacy handler does not (`Variants.DotlessPathDiffers`). Every other URL whose query-free part has no dot gets a placeholder from neither handler, and a request URL that carries a scheme never has one of those five strings as its query-free part.

Facts about the code that the model keeps:
- The legacy handler tests `ALLOWED_URL_PATTERN` on every request whose query-free URL has none of the image suffixes; image requests are answered before that test. The config-driven interceptor has no allow-list.
- The interceptor's image options are `BLANK_PIXEL`, `IGNORE` and `ALLOW`; `ALLOW` is also what any other value does, since it is the final `else`.
- The cache write runs after a 1000 ms timer in the interceptor and in a promise continuation in the legacy handler. The model makes it a separate, later step.

## Model

| member | source | states |
|---|---|---|
| `UrlText.StripQuery` | src/internalRequestCacheInterceptor.ts:32 | the path is the longest `?`-free prefix of the URL: a prefix with no `?`, equal to the URL or followed by its first `?` |
| `UrlText.AfterLast` | src/internalRequestCacheInterceptor.ts:33 | `split('.').pop()` is the longest dot-free suffix: it ends the path, holds no `.`, and is the whole path or preceded by a `.` |
| `UrlText.EndsWith` | src/renderer.ts:160-175 | `path.endsWith(suffix)`: the suffix is no longer than the path and equals its tail (no contract) |
| `UrlText.AfterLastDotIsSuffixTest` | src/renderer.ts:160-175 | for a path with a dot and a suffix made of `.` and dot-free text, the text after the last `.` of the path is that text iff the path ends in the suffix |
| `Interceptor.ImageTypeMembers` | src/internalRequestCacheInterceptor.ts:17 | the image types are exactly png, jpg, jpeg, gif and svg |
| `Interceptor.Extension` | src/internalRequestCacheInterceptor.ts:32-33 | the extension is taken from the query-free URL, ends it, contains neither `.` nor `?`, and is either the whole query-free URL or preceded there by a `.`, so it is the text after the last `.` |
| `Interceptor.Placeholder` | src/internalRequestCacheInterceptor.ts:21-24 | the stored answer for one image type: content type `image/<ext>`, that type's blank body, no status or headers (no contract) |
| `Interceptor.PlaceholderTable` | src/internalRequestCacheInterceptor.ts:17-26 | setup stores exactly one placeholder per image type png, jpg, jpeg, gif, svg, with content type `image/<ext>`, that type's blank body, and no status or headers |
| `Interceptor.Classify` | src/internalRequestCacheInterceptor.ts:31-72 | exactly the image requests under `BLANK_PIXEL` with a stored entry get that entry; exactly the image requests under `IGNORE` are aborted; exactly the eligible requests whose full URL is cached get the cached options; exactly the eligible misses are continued with a write pending |
| `Interceptor.IsImageUrl` | src/internalRequestCacheInterceptor.ts:34 | an image request is one whose extension is among the image types (no contract) |
| `Interceptor.IsCacheEligible` | src/internalRequestCacheInterceptor.ts:47 | a request is cache-eligible when it is not an image and its query-free URL matches `cacheUrlRegex` (no contract) |
| `Interceptor.ImageRequestDecision` | src/internalRequestCacheInterceptor.ts:34-46 | an image request under `BLANK_PIXEL` gets the stored placeholder for its extension, or is continued when none is stored; under `IGNORE` it is aborted; under `ALLOW` it is continued |
| `Interceptor.BlankPixelServesOwnType` | src/internalRequestCacheInterceptor.ts:19-41 | with the table built at setup, every image request under `BLANK_PIXEL` is answered with the blank of its own extension, typed `image/<ext>` |
| `Interceptor.ImageRequestsBypassCache` | src/internalRequestCacheInterceptor.ts:34-47 | an image request's decision is the same for every cache content, and is never a cache answer or a cache write, even if the regex matches |
| `Interceptor.EligibleRequestDecision` | src/internalRequestCacheInterceptor.ts:47-52 | a non-image request matching the regex is answered with the stored value, unchanged, when its full URL is cached, and is otherwise continued with a write pending |
| `Interceptor.IneligibleRequestContinues` | src/internalRequestCacheInterceptor.ts:70-72 | a non-image request the regex rejects is continued, whatever the cache holds |
| `Interceptor.CacheReadOnlyAtFullUrl` | src/internalRequestCacheInterceptor.ts:31-48 | two caches that agree at the request's full URL (query included) give the same decision |
| `Interceptor.ClassesIgnoreQuery` | src/internalRequestCacheInterceptor.ts:32-47 | image-ness and cache eligibility depend only on the query-free URL |
| `Interceptor.WriteBack` | src/internalRequestCacheInterceptor.ts:60-65 | the value set holds the response's headers, status and body, the content type from the `content-type` header or `text/html`, with TTL `cacheExpiry` |
| `Interceptor.WriteBackThenLookup` | src/internalRequestCacheInterceptor.ts:47-65 | after a write under a request's full URL, that request is a hit answered with the stored record; the decision for every other URL, including the same path with another query, is unchanged (in the eviction-free map that stands in for the cache) |
| `Interceptor.ResponseStore.constructor` | src/internalRequestCacheInterceptor.ts:28 | `new InMemoryLRUCache()` starts with no entries |
| `Interceptor.ResponseStore.Get` | src/internalRequestCacheInterceptor.ts:48 | `get` returns the value stored under the key, or nothing |
| `Interceptor.ResponseStore.Set` | src/internalRequestCacheInterceptor.ts:60-65 | `set` inserts or overwrites the key's entry with the value and TTL, leaving other keys alone (in the eviction-free map that stands in for the cache) |
| `Interceptor.RequestInterceptor.constructor` | src/internalRequestCacheInterceptor.ts:16-28 | setup fills the placeholder table for every image type and creates an empty cache that holds only eligible keys |
| `Interceptor.RequestInterceptor.HandleRequest` | src/internalRequestCacheInterceptor.ts:30-73 | the handler's call equals the decision for the current cache; it answers from the cache iff the request is eligible and its full URL is stored, and a cached answer is the options of an entry set with TTL `cacheExpiry` |
| `Interceptor.RequestInterceptor.CompleteWrite` | src/internalRequestCacheInterceptor.ts:53-68 | with a response, the record is set under the full request URL with TTL `cacheExpiry`; without one, nothing is written; the cache keeps holding only eligible keys with that TTL |
| `Respond.ContentTypeOf` | src/internalRequestCacheInterceptor.ts:62 | a present, non-empty `content-type` header is used as is; a missing or empty one gives `text/html`; the result is never empty |
| `Respond.CacheRecord` | src/renderer.ts:202-209 | the stored record carries the response's status, headers and body and the resolved content type |
| `LegacyRenderer.HasImageSuffix` | src/renderer.ts:160-175 | the query-free URL ends in `.jpg`, `.jpeg`, `.gif`, `.png` or `.svg` (no contract) |
| `LegacyRenderer.BlankResponse` | src/renderer.ts:161-178 | a blank-image answer: the given content type and body, no status or headers (no contract) |
| `LegacyRenderer.RouteOf` | src/renderer.ts:157-182 | a request gets a placeholder iff its query-free path has an image suffix; it is blocked iff it has none and fails the allow-list; it is cache-eligible iff it has none, passes the allow-list and matches the cache pattern |
| `LegacyRenderer.Decide` | src/renderer.ts:157-217 | a cached answer happens exactly on the cache-eligible route when the query-free URL is stored after the flush rule, and returns that stored record; a pending write happens exactly on that route when it is not stored; placeholders go exactly to image suffixes, with the blank `RouteOf` picks, and aborts exactly to blocked requests; the cache fields afterwards are the old ones or the flushed ones |
| `LegacyRenderer.ImageSuffixRoute` | src/renderer.ts:157-179 | a query-free path ending in `.jpg`/`.jpeg` gets the `image/jpeg` blank, `.gif` gets `image/gif`, and `.png` and `.svg` get `image/png`, before any pattern is tested |
| `LegacyRenderer.DotlessPathHasNoImageSuffix` | src/renderer.ts:160-175 | every suffix the legacy handler tests starts with `.`, so a path without a dot never gets a placeholder |
| `LegacyRenderer.NonImageRoute` | src/renderer.ts:180-217 | a non-image path failing the allow-list is aborted; an allowed one is cache-eligible iff it matches the cache pattern, and is otherwise passed through |
| `LegacyRenderer.NeedsFlush` | src/renderer.ts:183 | the cache is flushed when the counter exceeds 2000 or the cache is older than one day (no contract) |
| `LegacyRenderer.FlushIfStale` | src/renderer.ts:183-187 | when the counter exceeds 2000 or the cache is older than one day, the map is emptied, the counter zeroed and the clock restarted; otherwise all three fields are unchanged; afterwards both limits hold |
| `LegacyRenderer.OnlyEligibleRequestsTouchCache` | src/renderer.ts:156-217 | requests that are not cache-eligible leave all three cache fields unchanged and neither read nor schedule a cache write |
| `LegacyRenderer.EligibleDecision` | src/renderer.ts:182-193 | an eligible request applies the flush rule, then answers a hit on its query-free URL with the stored record and no write, and continues a miss with a write pending; right after a flush it always misses |
| `LegacyRenderer.Record` | src/renderer.ts:194-211 | a completed response is stored under `response.url()` and the counter rises by exactly one; without a response nothing changes |
| `LegacyRenderer.RecordKeepsCounter` | src/renderer.ts:202-210 | one write keeps the counter at or above the number of stored keys |
| `LegacyRenderer.DecideKeepsCounter` | src/renderer.ts:183-187 | a request, flushed or not, keeps the counter at or above the number of stored keys |
| `LegacyRenderer.OverwriteStillCounts` | src/renderer.ts:202-210 | rewriting a stored key raises the counter by one while the number of keys stays the same |
| `LegacyRenderer.ReplayKeepsCounter` | src/renderer.ts:183-210 | over any interleaving of requests and write-backs, the counter is never below the number of stored keys |
| `LegacyRenderer.QueryUrlNeverHitsItsOwnWrite` | src/renderer.ts:157-202 | a request whose URL carries a query is still a miss after its own write-back, because the lookup key drops the query and the write key keeps it |
| `LegacyRenderer.Renderer.constructor` | src/renderer.ts:23-36 | a new renderer has an empty cache, counter 0 and its clock started at construction |
| `LegacyRenderer.Renderer.Initialize` | src/renderer.ts:37-42 | `initialize` installs the blank images and leaves the cache fields alone |
| `LegacyRenderer.Renderer.OnRequest` | src/renderer.ts:156-218 | the handler's call and the new cache fields are those of `Decide` on the old fields; the counter invariant is kept |
| `LegacyRenderer.Renderer.OnResponse` | src/renderer.ts:194-211 | the write-back changes the fields as `Record` says and keeps the counter invariant |
| `RenderOutcome.IsTruthy` | src/renderer.ts:281 | only a non-zero parsed override is truthy; a missing tag or `NaN` is not (no contract) |
| `RenderOutcome.IsComputeMetadata` | src/renderer.ts:260 | the `metadata-flavor` header is present and equal to `Google` (no contract) |
| `RenderOutcome.FinalStatus` | src/renderer.ts:264-283 | 200 and 304 become the override when it is truthy (a non-zero number) and 200 otherwise; every other status is kept whatever the override |
| `RenderOutcome.Serialize` | src/renderer.ts:251-283 | no response gives {400, ''}; a `metadata-flavor: Google` header gives {403, ''}; otherwise the content is returned with the final status |
| `RenderOutcome.StatusExamples` | src/renderer.ts:267-283 | 200 with override 404 gives 404; 500 with override 404 stays 500; 304 without override gives 200 and with override 404 gives 404; a zero or unreadable override changes nothing |
| `RenderOutcome.NewScreenshotError` | src/renderer.ts:425-437 | the error's `type` is its constructor argument, its message is that type's name and its name is `ScreenshotError` |
| `RenderOutcome.Screenshot` | src/renderer.ts:404-420 | no response throws `NoResponse`; otherwise the metadata header throws `Forbidden`; otherwise the captured image is returned |
| `RenderOutcome.ScreenshotErrorsMatchSerializeGuards` | src/renderer.ts:404-412 | `screenshot` fails exactly when `serialize` answers from a guard; `NoResponse` pairs with 400 and `Forbidden` with 403, both with empty content |
| `RenderOutcome.CaptureMainResponse` | src/renderer.ts:232-249 | a `goto` that returns decides the response, `null` included; one that throws leaves the first response the listener saw, or none |
| `Variants.ImageTestsAgree` | src/renderer.ts:160-175 | on a path with a dot, the interceptor's extension test and the legacy suffix tests pick out the same requests |
| `Variants.SamePlaceholderRequests` | src/renderer.ts:156-179 | on a path with a dot, under `BLANK_PIXEL`, the interceptor answers with a placeholder exactly when the legacy handler does |
| `Variants.ContentTypesDiffer` | src/renderer.ts:160-179 | `.jpg` is `image/jpg` in the interceptor but `image/jpeg` in the legacy handler; `.svg` is `image/svg` in the interceptor but `image/png` in the legacy handler |
| `Variants.ExtensionsAreSuffixes` | src/renderer.ts:160-175 | on a path with a dot, for each of png, jpg, jpeg, gif and svg, the extension is that type iff the path ends in `.` and that type |
| `Variants.DotlessPathDiffers` | src/internalRequestCacheInterceptor.ts:33-34 | a URL whose query-free part has no `.` and is itself an image type (`png` or `png?x.y`, say) gets a placeholder from the interceptor, because the whole query-free part is its extension, but not from the legacy handler |

## Left out

- Driver calls (`respond`, `abort`, `continue`, `goto`, `setViewport`, `setUserAgent`, `page.screenshot`, closing pages and contexts) are driver I/O. They appear only as the `Action` value, the `Navigation` outcome and the captured image bytes.
- Reading the blank images from disk is file I/O. The bodies are parameters (`blank`, `Blanks`), and a failed read, which rejects setup, is not modelled.
- The in-page work runs in the browser against the DOM and is not modelled:
  - `stripPage`;
  - `modifyCSSStyleSheetPrototype`;
  - `injectBaseHref` and `url.parse`;
  - the style-log and script injection;
  - the final `outerHTML`, given as the `content` parameter.
- Timing is not modelled:
  - the interceptor's `setTimeout(..., 1000)`;
  - the legacy promise chain;
  - how writes interleave with other pages' requests.

  The write-back is a separate, later step (`CompleteWrite`, `OnResponse`). `Replay` lets requests and write-backs interleave in any order. A `buffer()` that rejects, which means no write, is not modelled: a `LiveResponse` always carries its body.
- `Interceptor.ResponseStore.Get`: returns what was last set for the key. The LRU eviction and TTL expiry of `InMemoryLRUCache` are not shown in the source, so the model assumes neither happens.
- `Interceptor.ResponseStore.Set`: the stand-in `set` never evicts another key and never expires an entry, even when `cacheExpiry` is 0 or less. An LRU cache at capacity would evict a key and turn its hit into a miss. So `Interceptor.WriteBackThenLookup`'s "hit after the write" and "other URLs unchanged" hold only for this eviction-free map.
- Logging is output only and is not modelled: `console.log` at src/internalRequestCacheInterceptor.ts:59 and `console.error` at src/renderer.ts:248, 252 and 401.
- `LegacyRenderer.Decide`: `responseCache` is a plain object, so the truthiness lookup at src/renderer.ts:189 would also treat inherited `Object.prototype` keys such as `constructor` as hits. The source's `^https?://` cache pattern makes such keys unreachable. The model's patterns are arbitrary predicates and its cache is a map, so it has no inherited keys.
- `BrowserPool` and the pool acquire/release around `serialize` and `screenshot` are not part of this model. Their source is not shown.
- The regular expressions are abstract predicates. The model claims nothing about which URLs they accept.
- `LegacyRenderer.Renderer.OnRequest`: the source reads the clock twice, once in the flush test and once when restarting the clock. The model uses one reading, `now`, for both.
- `LegacyRenderer.Renderer.constructor`: before `initialize` runs, the source's blank-image fields are `undefined`. The model starts them as empty byte sequences.
- Page statuses and meta-tag overrides are unbounded integers. `parseInt` results that JavaScript can only store approximately, beyond 2^53, are not modelled.
- `ImageResponseOption` is a closed three-valued type. An untyped value other than `BLANK_PIXEL` or `IGNORE` takes the `ALLOW` branch in the source, which is what `Allow` does here.
