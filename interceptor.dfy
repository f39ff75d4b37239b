/**
 * The config-driven interceptor: the per-request handler returned by
 * `getInternalRequestCacheInterceptor`, its placeholder table and the cache
 * it writes completed responses into.
 */
module Interceptor {
  import opened Wrappers
  import opened UrlText
  import opened Respond

  /** `ImageResponseOption`. Any value other than the first two behaves as `ALLOW`. */
  datatype ImageResponseOption = BlankPixel | Ignore | Allow

  /** `ResponseCacheConfig`; the regular expression is an abstract predicate on the path. */
  datatype ResponseCacheConfig = ResponseCacheConfig(
    cacheExpiry: int,
    cacheUrlRegex: string -> bool,
    imageCacheOptions: ImageResponseOption)

  /** The file extensions treated as images. */
  const ImageTypes: seq<string> := ["png", "jpg", "jpeg", "gif", "svg"]

  /** The image types, one by one. */
  lemma ImageTypeMembers(ext: string)
    ensures ext in ImageTypes <==> ext == "png" || ext == "jpg" || ext == "jpeg" || ext == "gif" || ext == "svg"
  {
  }

  /** The extension of a request URL: the text after the last `.` of its query-free part. */
  function Extension(url: string): (ext: string)
    ensures '.' !in ext && '?' !in ext
    ensures EndsWith(StripQuery(url), ext)
    ensures |ext| < |StripQuery(url)| ==> StripQuery(url)[|StripQuery(url)| - |ext| - 1] == '.'
  {
    AfterLast(StripQuery(url), '.')
  }

  /** `extension && imageTypes.indexOf(extension) !== -1`. */
  predicate IsImageUrl(url: string) {
    Extension(url) in ImageTypes
  }

  /** A request the handler looks up in the cache, and whose response it may store. */
  predicate IsCacheEligible(url: string, config: ResponseCacheConfig) {
    !IsImageUrl(url) && config.cacheUrlRegex(StripQuery(url))
  }

  /** The stored answer for an image of type `ext`. */
  function Placeholder(ext: string, body: seq<byte>): RespondOptions {
    RespondOptions(None, None, "image/" + ext, body)
  }

  /**
   * The table setup builds: one placeholder per image type, each with content
   * type `image/<ext>` and the blank image read for that type.
   */
  function PlaceholderTable(blank: string -> seq<byte>): (table: map<string, RespondOptions>)
    ensures table.Keys == set ext | ext in ImageTypes
    ensures forall ext :: ext in table ==> table[ext].contentType == "image/" + ext && table[ext].body == blank(ext)
    ensures forall ext :: ext in table ==> table[ext].status.None? && table[ext].headers.None?
  {
    map ext | ext in ImageTypes :: Placeholder(ext, blank(ext))
  }

  /** A cache entry together with the time-to-live it was set with. */
  datatype StoredEntry = StoredEntry(options: RespondOptions, ttl: int)

  /**
   * The decision the handler makes for one request, given the placeholder table
   * and what the cache holds.
   */
  function Classify(
    url: string,
    config: ResponseCacheConfig,
    placeholders: map<string, RespondOptions>,
    cache: map<string, StoredEntry>): (a: Action)
    ensures a.RespondPlaceholder? <==>
              IsImageUrl(url) && config.imageCacheOptions == BlankPixel && Extension(url) in placeholders
    ensures a.RespondPlaceholder? ==> a.options == placeholders[Extension(url)]
    ensures a.Abort? <==> IsImageUrl(url) && config.imageCacheOptions == Ignore
    ensures a.RespondCached? <==> IsCacheEligible(url, config) && url in cache
    ensures a.RespondCached? ==> a.options == cache[url].options
    ensures a.ContinueThenCache? <==> IsCacheEligible(url, config) && url !in cache
  {
    var ext := Extension(url);
    if ext in ImageTypes then
      match config.imageCacheOptions
      case BlankPixel => if ext in placeholders then RespondPlaceholder(placeholders[ext]) else Continue
      case Ignore => Abort
      case Allow => Continue
    else if config.cacheUrlRegex(StripQuery(url)) then
      if url in cache then RespondCached(cache[url].options) else ContinueThenCache
    else
      Continue
  }

  /** The three image options, and the fallback when no placeholder is stored. */
  lemma ImageRequestDecision(
    url: string,
    config: ResponseCacheConfig,
    placeholders: map<string, RespondOptions>,
    cache: map<string, StoredEntry>)
    requires IsImageUrl(url)
    ensures var a := Classify(url, config, placeholders, cache);
            && (config.imageCacheOptions == BlankPixel && Extension(url) in placeholders ==>
                  a == RespondPlaceholder(placeholders[Extension(url)]))
            && (config.imageCacheOptions == BlankPixel && Extension(url) !in placeholders ==> a == Continue)
            && (config.imageCacheOptions == Ignore ==> a == Abort)
            && (config.imageCacheOptions == Allow ==> a == Continue)
  {
  }

  /**
   * With the table built at setup, an image request under `BLANK_PIXEL` is
   * answered with the blank image of its own extension, typed `image/<ext>`.
   */
  lemma BlankPixelServesOwnType(
    url: string,
    config: ResponseCacheConfig,
    blank: string -> seq<byte>,
    cache: map<string, StoredEntry>)
    requires IsImageUrl(url)
    requires config.imageCacheOptions == BlankPixel
    ensures var a := Classify(url, config, PlaceholderTable(blank), cache);
            && a.RespondPlaceholder?
            && a.options.contentType == "image/" + Extension(url)
            && a.options.body == blank(Extension(url))
  {
  }

  /**
   * An image request neither reads nor writes the cache: its decision is the
   * same whatever the cache holds, even when the regex matches its path.
   */
  lemma ImageRequestsBypassCache(
    url: string,
    config: ResponseCacheConfig,
    placeholders: map<string, RespondOptions>,
    cache1: map<string, StoredEntry>,
    cache2: map<string, StoredEntry>)
    requires IsImageUrl(url)
    ensures Classify(url, config, placeholders, cache1) == Classify(url, config, placeholders, cache2)
    ensures var a := Classify(url, config, placeholders, cache1); !a.RespondCached? && !a.ContinueThenCache?
  {
    var ext := Extension(url);
    var a := if config.imageCacheOptions == BlankPixel && ext in placeholders then RespondPlaceholder(placeholders[ext])
             else if config.imageCacheOptions == Ignore then Abort
             else Continue;
    assert Classify(url, config, placeholders, cache1) == a;
    assert Classify(url, config, placeholders, cache2) == a;
  }

  /**
   * A cache-eligible request is answered with the stored value, unchanged,
   * when the cache holds its full URL, and is otherwise continued with a write
   * pending.
   */
  lemma EligibleRequestDecision(
    url: string,
    config: ResponseCacheConfig,
    placeholders: map<string, RespondOptions>,
    cache: map<string, StoredEntry>)
    requires IsCacheEligible(url, config)
    ensures url in cache ==> Classify(url, config, placeholders, cache) == RespondCached(cache[url].options)
    ensures url !in cache ==> Classify(url, config, placeholders, cache) == ContinueThenCache
  {
  }

  /** A non-image request whose path the regex rejects is continued, whatever the cache holds. */
  lemma IneligibleRequestContinues(
    url: string,
    config: ResponseCacheConfig,
    placeholders: map<string, RespondOptions>,
    cache: map<string, StoredEntry>)
    requires !IsImageUrl(url) && !config.cacheUrlRegex(StripQuery(url))
    ensures Classify(url, config, placeholders, cache) == Continue
  {
  }

  /**
   * The decision reads the cache only at the request's full URL: two caches
   * that agree there give the same decision.
   */
  lemma CacheReadOnlyAtFullUrl(
    url: string,
    config: ResponseCacheConfig,
    placeholders: map<string, RespondOptions>,
    cache1: map<string, StoredEntry>,
    cache2: map<string, StoredEntry>)
    requires url in cache1 <==> url in cache2
    requires url in cache1 ==> cache1[url].options == cache2[url].options
    ensures Classify(url, config, placeholders, cache1) == Classify(url, config, placeholders, cache2)
  {
    var ext := Extension(url);
    var eligible := ext !in ImageTypes && config.cacheUrlRegex(StripQuery(url));
    if eligible && url in cache1 {
      assert Classify(url, config, placeholders, cache1) == RespondCached(cache1[url].options);
      assert Classify(url, config, placeholders, cache2) == RespondCached(cache2[url].options);
    } else if eligible {
      assert Classify(url, config, placeholders, cache1) == ContinueThenCache;
      assert Classify(url, config, placeholders, cache2) == ContinueThenCache;
    }
  }

  /**
   * Whether a request is an image, and whether it is cache-eligible, depends
   * only on its query-free part.
   */
  lemma ClassesIgnoreQuery(url1: string, url2: string, config: ResponseCacheConfig)
    requires StripQuery(url1) == StripQuery(url2)
    ensures IsImageUrl(url1) == IsImageUrl(url2)
    ensures IsCacheEligible(url1, config) == IsCacheEligible(url2, config)
  {
  }

  /** The value `set` receives for an eligible request whose response completed. */
  function WriteBack(config: ResponseCacheConfig, response: LiveResponse): (e: StoredEntry)
    ensures e.ttl == config.cacheExpiry
    ensures e.options.status == Some(response.status) && e.options.headers == Some(response.headers)
    ensures e.options.body == response.body
    ensures e.options.contentType == ContentTypeOf(response.headers)
  {
    StoredEntry(CacheRecord(response), config.cacheExpiry)
  }

  /**
   * A write under a request's full URL makes that same request a cache hit
   * answered with the stored record, and leaves the decision for every other
   * URL, including the same path with another query, as it was.
   */
  lemma {:induction false} WriteBackThenLookup(
    url: string,
    other: string,
    config: ResponseCacheConfig,
    placeholders: map<string, RespondOptions>,
    cache: map<string, StoredEntry>,
    response: LiveResponse)
    requires IsCacheEligible(url, config)
    requires other != url
    ensures var after := cache[url := WriteBack(config, response)];
            && Classify(url, config, placeholders, after) == RespondCached(CacheRecord(response))
            && Classify(other, config, placeholders, after) == Classify(other, config, placeholders, cache)
  {
    var after := cache[url := WriteBack(config, response)];
    CacheReadOnlyAtFullUrl(other, config, placeholders, after, cache);
  }

  /**
   * The cache the interceptor writes into (`InMemoryLRUCache`), seen only
   * through `get` and `set(key, value, ttl)`.
   */
  class ResponseStore {
    var entries: map<string, StoredEntry>

    constructor ()
      ensures entries == map[]
    {
      entries := map[];
    }

    /** `get(key)`: the stored value, or nothing. */
    method Get(key: string) returns (r: Option<RespondOptions>)
      ensures key in entries ==> r == Some(entries[key].options)
      ensures key !in entries ==> r == None
    {
      if key in entries {
        r := Some(entries[key].options);
      } else {
        r := None;
      }
    }

    /** `set(key, value, ttl)`: inserts or overwrites the entry for `key`. */
    method Set(key: string, value: RespondOptions, ttl: int)
      modifies this
      ensures entries == old(entries)[key := StoredEntry(value, ttl)]
    {
      entries := entries[key := StoredEntry(value, ttl)];
    }
  }

  /** The handler returned by `getInternalRequestCacheInterceptor`, with what it closes over. */
  class RequestInterceptor {
    const config: ResponseCacheConfig
    var imageRespondOptions: map<string, RespondOptions>
    const cacheStore: ResponseStore

    /**
     * The cache the handler owns holds only eligible full URLs, each set with
     * the configured time-to-live.
     */
    ghost predicate Valid()
      reads this, cacheStore
    {
      forall key :: key in cacheStore.entries ==>
        IsCacheEligible(key, config) && cacheStore.entries[key].ttl == config.cacheExpiry
    }

    /** Setup: fills the placeholder table for every image type and creates an empty cache. */
    constructor (config: ResponseCacheConfig, blank: string -> seq<byte>)
      ensures this.config == config
      ensures imageRespondOptions == PlaceholderTable(blank)
      ensures fresh(cacheStore) && cacheStore.entries == map[]
      ensures Valid()
    {
      var table: map<string, RespondOptions> := map[];
      for i := 0 to |ImageTypes|
        invariant table.Keys == set ext | ext in ImageTypes[..i]
        invariant forall ext :: ext in table ==> table[ext] == Placeholder(ext, blank(ext))
      {
        table := table[ImageTypes[i] := Placeholder(ImageTypes[i], blank(ImageTypes[i]))];
      }
      assert ImageTypes[..|ImageTypes|] == ImageTypes;
      this.config := config;
      imageRespondOptions := table;
      cacheStore := new ResponseStore();
    }

    /** The per-request handler: the driver call it makes for `url`. */
    method HandleRequest(url: string) returns (a: Action)
      requires Valid()
      ensures a == Classify(url, config, imageRespondOptions, cacheStore.entries)
      ensures a.RespondCached? <==> IsCacheEligible(url, config) && url in cacheStore.entries
      ensures a.RespondCached? ==>
                a.options == cacheStore.entries[url].options && cacheStore.entries[url].ttl == config.cacheExpiry
    {
      var fullUrl := url;
      var path := StripQuery(url);
      var extension := AfterLast(path, '.');
      if extension in ImageTypes {
        if config.imageCacheOptions == BlankPixel {
          if extension in imageRespondOptions {
            a := RespondPlaceholder(imageRespondOptions[extension]);
          } else {
            a := Continue;
          }
        } else if config.imageCacheOptions == Ignore {
          a := Abort;
        } else {
          a := Continue;
        }
      } else if config.cacheUrlRegex(path) {
        var cached := cacheStore.Get(fullUrl);
        if cached.Some? {
          a := RespondCached(cached.value);
        } else {
          a := ContinueThenCache;
        }
      } else {
        a := Continue;
      }
    }

    /**
     * The write-back after a cache miss: when the request produced a response,
     * its record is set under the request's full URL with the configured
     * time-to-live; without a response nothing is written.
     */
    method CompleteWrite(url: string, response: Option<LiveResponse>)
      requires Valid()
      requires IsCacheEligible(url, config)
      modifies cacheStore
      ensures Valid()
      ensures response.Some? ==>
        cacheStore.entries == old(cacheStore.entries)[url := WriteBack(config, response.value)]
      ensures response.None? ==> cacheStore.entries == old(cacheStore.entries)
    {
      if response.Some? {
        cacheStore.Set(url, CacheRecord(response.value), config.cacheExpiry);
      }
    }
  }
}
