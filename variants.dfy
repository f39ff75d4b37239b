/**
 * The two request handlers side by side: on paths that contain a dot they
 * agree on which requests are images, but not on every content type.
 */
module Variants {
  import opened UrlText
  import opened Respond
  import Interceptor
  import LegacyRenderer

  /** For each image type, the interceptor's extension test and the legacy suffix test agree on a path with a dot. */
  lemma {:induction false} ExtensionsAreSuffixes(path: string)
    requires '.' in path
    ensures AfterLast(path, '.') == "png" <==> EndsWith(path, ".png")
    ensures AfterLast(path, '.') == "jpg" <==> EndsWith(path, ".jpg")
    ensures AfterLast(path, '.') == "jpeg" <==> EndsWith(path, ".jpeg")
    ensures AfterLast(path, '.') == "gif" <==> EndsWith(path, ".gif")
    ensures AfterLast(path, '.') == "svg" <==> EndsWith(path, ".svg")
  {
    assert ".png"[1..] == "png";
    AfterLastDotIsSuffixTest(path, ".png");
    assert ".jpg"[1..] == "jpg";
    AfterLastDotIsSuffixTest(path, ".jpg");
    assert ".jpeg"[1..] == "jpeg";
    AfterLastDotIsSuffixTest(path, ".jpeg");
    assert ".gif"[1..] == "gif";
    AfterLastDotIsSuffixTest(path, ".gif");
    assert ".svg"[1..] == "svg";
    AfterLastDotIsSuffixTest(path, ".svg");
  }

  /** The interceptor's image test and the legacy suffix tests, on a path with a dot. */
  lemma {:induction false} ImageTestsAgree(url: string)
    requires '.' in StripQuery(url)
    ensures Interceptor.IsImageUrl(url) <==> LegacyRenderer.HasImageSuffix(StripQuery(url))
  {
    ExtensionsAreSuffixes(StripQuery(url));
    Interceptor.ImageTypeMembers(Interceptor.Extension(url));
  }

  /**
   * Under `BLANK_PIXEL` with the table built at setup, the interceptor answers
   * a request with a placeholder exactly when the legacy handler does, for
   * every path that contains a dot, whatever either cache holds and whatever
   * the URL patterns are.
   */
  lemma {:induction false} SamePlaceholderRequests(
    url: string,
    config: Interceptor.ResponseCacheConfig,
    blank: string -> seq<byte>,
    cache: map<string, Interceptor.StoredEntry>,
    patterns: LegacyRenderer.UrlPatterns,
    blanks: LegacyRenderer.Blanks)
    requires '.' in StripQuery(url)
    requires config.imageCacheOptions == Interceptor.BlankPixel
    ensures Interceptor.Classify(url, config, Interceptor.PlaceholderTable(blank), cache).RespondPlaceholder?
            <==> LegacyRenderer.RouteOf(url, patterns, blanks).Placeholder?
  {
    ImageTestsAgree(url);
    if LegacyRenderer.HasImageSuffix(StripQuery(url)) {
      LegacyRenderer.ImageSuffixRoute(url, patterns, blanks);
    }
  }

  /**
   * Where they differ: for `.jpg` the interceptor sends `image/jpg` and the
   * legacy handler `image/jpeg`; for `.svg` the interceptor sends `image/svg`
   * and the legacy handler `image/png`.
   */
  lemma {:induction false} ContentTypesDiffer(
    url: string,
    config: Interceptor.ResponseCacheConfig,
    blank: string -> seq<byte>,
    cache: map<string, Interceptor.StoredEntry>,
    patterns: LegacyRenderer.UrlPatterns,
    blanks: LegacyRenderer.Blanks)
    requires '.' in StripQuery(url)
    requires config.imageCacheOptions == Interceptor.BlankPixel
    requires Interceptor.Extension(url) == "jpg" || Interceptor.Extension(url) == "svg"
    ensures var a := Interceptor.Classify(url, config, Interceptor.PlaceholderTable(blank), cache);
            var r := LegacyRenderer.RouteOf(url, patterns, blanks);
            && a.RespondPlaceholder? && r.Placeholder?
            && (Interceptor.Extension(url) == "jpg" ==>
                  a.options.contentType == "image/jpg" && r.options.contentType == "image/jpeg")
            && (Interceptor.Extension(url) == "svg" ==>
                  a.options.contentType == "image/svg" && r.options.contentType == "image/png")
  {
    var ext := Interceptor.Extension(url);
    ExtensionsAreSuffixes(StripQuery(url));
    Interceptor.ImageTypeMembers(ext);
    Interceptor.BlankPixelServesOwnType(url, config, blank, cache);
    LegacyRenderer.ImageSuffixRoute(url, patterns, blanks);
    ContentTypeLiterals();
  }

  /** The two `image/<ext>` content types, spelled out. */
  lemma ContentTypeLiterals()
    ensures "image/" + "jpg" == "image/jpg"
    ensures "image/" + "svg" == "image/svg"
  {
  }

  /**
   * A URL whose query-free part has no dot and is itself an image type, such
   * as `png` or `png?x.y`, is an image to the interceptor (its
   * `split('.').pop()` is the whole query-free part) and not to the legacy
   * handler.
   */
  lemma {:induction false} DotlessPathDiffers(
    url: string,
    config: Interceptor.ResponseCacheConfig,
    blank: string -> seq<byte>,
    cache: map<string, Interceptor.StoredEntry>,
    patterns: LegacyRenderer.UrlPatterns,
    blanks: LegacyRenderer.Blanks)
    requires '.' !in StripQuery(url)
    requires StripQuery(url) in Interceptor.ImageTypes
    requires config.imageCacheOptions == Interceptor.BlankPixel
    ensures Interceptor.Classify(url, config, Interceptor.PlaceholderTable(blank), cache).RespondPlaceholder?
    ensures !LegacyRenderer.RouteOf(url, patterns, blanks).Placeholder?
  {
    var path := StripQuery(url);
    AfterLastWithoutSeparator(path, '.');
    Interceptor.BlankPixelServesOwnType(url, config, blank, cache);
    LegacyRenderer.DotlessPathHasNoImageSuffix(path);
    LegacyRenderer.NonImageRoute(url, patterns, blanks);
  }
}
