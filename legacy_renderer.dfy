/**
 * The hard-wired request handler in `Renderer.serialize` and the response
 * cache it keeps in three fields of `Renderer`: a map, a write counter and the
 * time the cache was last emptied.
 */
module LegacyRenderer {
  import opened Wrappers
  import opened UrlText
  import opened Respond

  /** `Renderer.CACHE_EXPIRY`: one day in milliseconds. */
  const CacheExpiry: int := 24 * 60 * 60 * 1000

  /** The counter value above which the next cache-eligible request empties the cache. */
  const MaxCacheSize: int := 2000

  /**
   * `ALLOWED_URL_PATTERN` and `CACHE_URL_PATTERN` as abstract predicates on the
   * query-free URL.
   */
  datatype UrlPatterns = UrlPatterns(allowed: string -> bool, cacheable: string -> bool)

  /** The blank images loaded by `initialize()`. */
  datatype Blanks = Blanks(jpg: seq<byte>, gif: seq<byte>, png: seq<byte>, svg: seq<byte>)

  /** The branch the handler takes before it touches the cache. */
  datatype Route =
    | Placeholder(options: RespondOptions)
    | Blocked
    | PassThrough
    | CacheEligible

  function BlankResponse(contentType: string, body: seq<byte>): RespondOptions {
    RespondOptions(None, None, contentType, body)
  }

  /** True when the query-free path ends in one of the five image suffixes (`.jpg`, `.jpeg`, `.gif`, `.png`, `.svg`) tested first. */
  predicate HasImageSuffix(path: string) {
    EndsWith(path, ".jpg") || EndsWith(path, ".jpeg") || EndsWith(path, ".gif")
    || EndsWith(path, ".png") || EndsWith(path, ".svg")
  }

  /** The branch choice of the `request` handler, in its order of tests. */
  function RouteOf(url: string, patterns: UrlPatterns, blanks: Blanks): (r: Route)
    ensures r.Placeholder? <==> HasImageSuffix(StripQuery(url))
    ensures r.Blocked? <==> !HasImageSuffix(StripQuery(url)) && !patterns.allowed(StripQuery(url))
    ensures r.CacheEligible? <==>
              !HasImageSuffix(StripQuery(url)) && patterns.allowed(StripQuery(url)) && patterns.cacheable(StripQuery(url))
  {
    var path := StripQuery(url);
    if EndsWith(path, ".jpg") || EndsWith(path, ".jpeg") then Placeholder(BlankResponse("image/jpeg", blanks.jpg))
    else if EndsWith(path, ".gif") then Placeholder(BlankResponse("image/gif", blanks.gif))
    else if EndsWith(path, ".png") then Placeholder(BlankResponse("image/png", blanks.png))
    else if EndsWith(path, ".svg") then Placeholder(BlankResponse("image/png", blanks.svg))
    else if !patterns.allowed(path) then Blocked
    else if patterns.cacheable(path) then CacheEligible
    else PassThrough
  }

  /**
   * Image suffixes are answered with a blank image before any pattern is
   * consulted: `.jpg` and `.jpeg` as `image/jpeg`, `.gif` as `image/gif`, and
   * both `.png` and `.svg` as `image/png`.
   */
  lemma {:induction false} ImageSuffixRoute(url: string, patterns: UrlPatterns, blanks: Blanks)
    requires HasImageSuffix(StripQuery(url))
    ensures var path := StripQuery(url); var r := RouteOf(url, patterns, blanks);
            && r.Placeholder?
            && (EndsWith(path, ".jpg") || EndsWith(path, ".jpeg") ==> r.options == BlankResponse("image/jpeg", blanks.jpg))
            && (EndsWith(path, ".gif") ==> r.options == BlankResponse("image/gif", blanks.gif))
            && (EndsWith(path, ".png") ==> r.options == BlankResponse("image/png", blanks.png))
            && (EndsWith(path, ".svg") ==> r.options == BlankResponse("image/png", blanks.svg))
  {
    var path := StripQuery(url);
    SuffixOfSuffix(path, ".jpg", ".gif");
    SuffixOfSuffix(path, ".jpg", ".png");
    SuffixOfSuffix(path, ".jpg", ".svg");
    SuffixOfSuffix(path, ".jpeg", ".gif");
    SuffixOfSuffix(path, ".jpeg", ".png");
    SuffixOfSuffix(path, ".jpeg", ".svg");
    SuffixOfSuffix(path, ".gif", ".png");
    SuffixOfSuffix(path, ".gif", ".svg");
    SuffixOfSuffix(path, ".png", ".svg");
  }

  /** Two strings that both end `s` end one another. */
  lemma SuffixOfSuffix(s: string, a: string, b: string)
    ensures EndsWith(s, a) && EndsWith(s, b) && |b| <= |a| ==> EndsWith(a, b)
  {
    if EndsWith(s, a) && EndsWith(s, b) && |b| <= |a| {
      assert a[|a| - |b|..] == s[|s| - |b|..];
    }
  }

  /** Every image suffix starts with a dot, so a path without one has none of them. */
  lemma DotlessPathHasNoImageSuffix(path: string)
    requires '.' !in path
    ensures !HasImageSuffix(path)
  {
    EndsWithContainsFirst(path, ".jpg");
    EndsWithContainsFirst(path, ".jpeg");
    EndsWithContainsFirst(path, ".gif");
    EndsWithContainsFirst(path, ".png");
    EndsWithContainsFirst(path, ".svg");
  }

  /** A path without an image suffix that fails the allow-list is aborted; one that passes is routed by the cache pattern. */
  lemma NonImageRoute(url: string, patterns: UrlPatterns, blanks: Blanks)
    requires !HasImageSuffix(StripQuery(url))
    ensures !patterns.allowed(StripQuery(url)) ==> RouteOf(url, patterns, blanks) == Blocked
    ensures patterns.allowed(StripQuery(url)) && patterns.cacheable(StripQuery(url)) ==>
              RouteOf(url, patterns, blanks) == CacheEligible
    ensures patterns.allowed(StripQuery(url)) && !patterns.cacheable(StripQuery(url)) ==>
              RouteOf(url, patterns, blanks) == PassThrough
  {
  }

  /** The three cache fields. */
  datatype CacheState = CacheState(entries: map<string, RespondOptions>, size: int, startTimeStamp: int)

  /** The flush test made before every cache lookup. */
  predicate NeedsFlush(st: CacheState, now: int) {
    st.size > MaxCacheSize || now - st.startTimeStamp > CacheExpiry
  }

  /**
   * Empties the cache, resets the counter and restarts the clock when the
   * counter is above the limit or the cache is older than a day; otherwise
   * leaves all three fields alone. Either way the cache is within both limits
   * afterwards.
   */
  function FlushIfStale(st: CacheState, now: int): (r: CacheState)
    ensures NeedsFlush(st, now) ==> r.entries == map[] && r.size == 0 && r.startTimeStamp == now
    ensures !NeedsFlush(st, now) ==> r == st
    ensures r.size <= MaxCacheSize && now - r.startTimeStamp <= CacheExpiry
  {
    if NeedsFlush(st, now) then CacheState(map[], 0, now) else st
  }

  /** The handler's action for `url` at time `now` and the cache fields afterwards. */
  function Decide(st: CacheState, url: string, now: int, patterns: UrlPatterns, blanks: Blanks): (r: (Action, CacheState))
    ensures r.0.RespondCached? <==> RouteOf(url, patterns, blanks).CacheEligible? && StripQuery(url) in r.1.entries
    ensures r.0.RespondCached? ==> r.0.options == r.1.entries[StripQuery(url)]
    ensures r.0.ContinueThenCache? <==>
              RouteOf(url, patterns, blanks).CacheEligible? && StripQuery(url) !in r.1.entries
    ensures r.0.RespondPlaceholder? <==> HasImageSuffix(StripQuery(url))
    ensures r.0.RespondPlaceholder? ==> r.0.options == RouteOf(url, patterns, blanks).options
    ensures r.0.Abort? <==> RouteOf(url, patterns, blanks).Blocked?
    ensures r.1 == st || r.1 == FlushIfStale(st, now)
  {
    match RouteOf(url, patterns, blanks)
    case Placeholder(options) => (RespondPlaceholder(options), st)
    case Blocked => (Abort, st)
    case PassThrough => (Continue, st)
    case CacheEligible =>
      var current := FlushIfStale(st, now);
      var key := StripQuery(url);
      if key in current.entries then (RespondCached(current.entries[key]), current)
      else (ContinueThenCache, current)
  }

  /** Every request that is not cache-eligible leaves the three cache fields untouched. */
  lemma OnlyEligibleRequestsTouchCache(st: CacheState, url: string, now: int, patterns: UrlPatterns, blanks: Blanks)
    requires RouteOf(url, patterns, blanks) != CacheEligible
    ensures Decide(st, url, now, patterns, blanks).1 == st
    ensures !Decide(st, url, now, patterns, blanks).0.RespondCached?
    ensures !Decide(st, url, now, patterns, blanks).0.ContinueThenCache?
  {
  }

  /**
   * A cache-eligible request first applies the flush rule, then looks up its
   * query-free URL: a hit is answered with the stored record and schedules no
   * write, a miss is continued with a write pending.
   */
  lemma EligibleDecision(st: CacheState, url: string, now: int, patterns: UrlPatterns, blanks: Blanks)
    requires RouteOf(url, patterns, blanks) == CacheEligible
    ensures var (a, st') := Decide(st, url, now, patterns, blanks);
            && st' == FlushIfStale(st, now)
            && (StripQuery(url) in st'.entries ==> a == RespondCached(st'.entries[StripQuery(url)]))
            && (StripQuery(url) !in st'.entries ==> a == ContinueThenCache)
            && (NeedsFlush(st, now) ==> a == ContinueThenCache)
  {
  }

  /**
   * The write-back after a miss: a completed response is stored under its own
   * URL and the counter goes up by one, even when the key was already there.
   */
  function Record(st: CacheState, response: Option<LiveResponse>): (r: CacheState)
    ensures response.None? ==> r == st
    ensures response.Some? ==>
              && r.entries == st.entries[response.value.url := CacheRecord(response.value)]
              && r.size == st.size + 1
              && r.startTimeStamp == st.startTimeStamp
  {
    match response
    case None => st
    case Some(res) => CacheState(st.entries[res.url := CacheRecord(res)], st.size + 1, st.startTimeStamp)
  }

  /** The counter is never below the number of stored keys. */
  predicate CounterCoversKeys(st: CacheState) {
    |st.entries.Keys| <= st.size
  }

  /** One write keeps the counter at or above the number of keys. */
  lemma RecordKeepsCounter(st: CacheState, response: Option<LiveResponse>)
    requires CounterCoversKeys(st)
    ensures CounterCoversKeys(Record(st, response))
  {
    if response.Some? {
      var k := response.value.url;
      assert Record(st, response).entries.Keys == st.entries.Keys + {k};
    }
  }

  /** A request, flushed or not, keeps the counter at or above the number of keys. */
  lemma DecideKeepsCounter(st: CacheState, url: string, now: int, patterns: UrlPatterns, blanks: Blanks)
    requires CounterCoversKeys(st)
    ensures CounterCoversKeys(Decide(st, url, now, patterns, blanks).1)
  {
    if RouteOf(url, patterns, blanks) == CacheEligible && NeedsFlush(st, now) {
      assert Decide(st, url, now, patterns, blanks).1.entries == map[];
    }
  }

  /**
   * Writing a key that is already stored still counts: the counter moves on
   * while the number of keys stays the same.
   */
  lemma OverwriteStillCounts(st: CacheState, response: LiveResponse)
    requires response.url in st.entries
    ensures Record(st, Some(response)).size == st.size + 1
    ensures |Record(st, Some(response)).entries.Keys| == |st.entries.Keys|
  {
    assert Record(st, Some(response)).entries.Keys == st.entries.Keys;
  }

  /** What reaches the cache fields: a request with the clock reading, or a finished write-back. */
  datatype CacheEvent =
    | Request(url: string, now: int)
    | Completed(response: Option<LiveResponse>)

  /** The cache fields after one event. */
  function Step(st: CacheState, e: CacheEvent, patterns: UrlPatterns, blanks: Blanks): CacheState {
    match e
    case Request(url, now) => Decide(st, url, now, patterns, blanks).1
    case Completed(response) => Record(st, response)
  }

  /** The cache fields after a sequence of events, in order. */
  function Replay(st: CacheState, events: seq<CacheEvent>, patterns: UrlPatterns, blanks: Blanks): CacheState
    decreases |events|
  {
    if events == [] then st else Replay(Step(st, events[0], patterns, blanks), events[1..], patterns, blanks)
  }

  /**
   * However requests and write-backs interleave, the counter stays at or above
   * the number of stored keys.
   */
  lemma {:induction false} ReplayKeepsCounter(st: CacheState, events: seq<CacheEvent>, patterns: UrlPatterns, blanks: Blanks)
    requires CounterCoversKeys(st)
    ensures CounterCoversKeys(Replay(st, events, patterns, blanks))
    decreases |events|
  {
    if events != [] {
      var next := Step(st, events[0], patterns, blanks);
      match events[0] {
        case Request(url, now) =>
          DecideKeepsCounter(st, url, now, patterns, blanks);
        case Completed(response) =>
          RecordKeepsCounter(st, response);
      }
      ReplayKeepsCounter(next, events[1..], patterns, blanks);
    }
  }

  /**
   * The lookup key is the query-free URL but the write key is the response's
   * URL. For a request whose URL carries a query, its own write-back never
   * produces a hit: after it, the same request is still a miss.
   */
  lemma {:induction false} QueryUrlNeverHitsItsOwnWrite(
    st: CacheState, url: string, now: int, patterns: UrlPatterns, blanks: Blanks, response: LiveResponse)
    requires RouteOf(url, patterns, blanks) == CacheEligible
    requires StripQuery(url) != url
    requires StripQuery(url) !in st.entries
    requires response.url == url
    ensures Decide(Record(st, Some(response)), url, now, patterns, blanks).0 == ContinueThenCache
  {
  }

  /** The renderer's three cache fields and the blank images it answers image requests with. */
  class Renderer {
    const patterns: UrlPatterns
    var blanks: Blanks
    var responseCache: map<string, RespondOptions>
    var responseCacheSize: int
    var responseCacheStartTimeStamp: int

    function State(): CacheState
      reads this
    {
      CacheState(responseCache, responseCacheSize, responseCacheStartTimeStamp)
    }

    ghost predicate Valid()
      reads this
    {
      CounterCoversKeys(State())
    }

    /** A new renderer: empty cache, counter 0, clock started at `now`, no images loaded yet. */
    constructor (patterns: UrlPatterns, now: int)
      ensures this.patterns == patterns
      ensures State() == CacheState(map[], 0, now)
      ensures blanks == Blanks([], [], [], [])
      ensures Valid()
    {
      this.patterns := patterns;
      blanks := Blanks([], [], [], []);
      responseCache := map[];
      responseCacheSize := 0;
      responseCacheStartTimeStamp := now;
    }

    /** `initialize()`: stores the blank images (their reading from disk is not modelled). */
    method Initialize(loaded: Blanks)
      modifies this
      ensures blanks == loaded
      ensures State() == old(State())
    {
      blanks := loaded;
    }

    /** The `request` handler: the driver call for `url` at time `now`. */
    method OnRequest(url: string, now: int) returns (a: Action)
      requires Valid()
      modifies this
      ensures Valid()
      ensures (a, State()) == Decide(old(State()), url, now, patterns, blanks)
      ensures blanks == old(blanks)
    {
      var path := StripQuery(url);
      if EndsWith(path, ".jpg") || EndsWith(path, ".jpeg") {
        a := RespondPlaceholder(BlankResponse("image/jpeg", blanks.jpg));
      } else if EndsWith(path, ".gif") {
        a := RespondPlaceholder(BlankResponse("image/gif", blanks.gif));
      } else if EndsWith(path, ".png") {
        a := RespondPlaceholder(BlankResponse("image/png", blanks.png));
      } else if EndsWith(path, ".svg") {
        a := RespondPlaceholder(BlankResponse("image/png", blanks.svg));
      } else if !patterns.allowed(path) {
        a := Abort;
      } else if patterns.cacheable(path) {
        if responseCacheSize > MaxCacheSize || now - responseCacheStartTimeStamp > CacheExpiry {
          responseCache := map[];
          responseCacheSize := 0;
          responseCacheStartTimeStamp := now;
        }
        if path in responseCache {
          a := RespondCached(responseCache[path]);
        } else {
          a := ContinueThenCache;
        }
      } else {
        a := Continue;
      }
    }

    /** The write-back after `continue()` resolves, with the response if there was one. */
    method OnResponse(response: Option<LiveResponse>)
      requires Valid()
      modifies this
      ensures Valid()
      ensures State() == Record(old(State()), response)
      ensures blanks == old(blanks)
    {
      RecordKeepsCounter(State(), response);
      if response.Some? {
        var r := response.value;
        responseCache := responseCache[r.url := CacheRecord(r)];
        responseCacheSize := responseCacheSize + 1;
      }
    }
  }
}
