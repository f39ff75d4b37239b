/**
 * The string operations both request handlers apply to a request URL:
 * `url.split('?')[0]`, `path.split('.').pop()` and `path.endsWith(suffix)`.
 */
module UrlText {

  /** Index of the first `c` in `s`, or `|s|` when `s` has none. */
  function IndexOf(s: string, c: char): (i: nat)
    ensures i <= |s|
    ensures i < |s| ==> s[i] == c
    ensures forall k :: 0 <= k < i ==> s[k] != c
  {
    if s == [] then 0
    else if s[0] == c then 0
    else 1 + IndexOf(s[1..], c)
  }

  /**
   * `url.split('?')[0]`: the URL with everything from its first `?` removed.
   * The result is the longest prefix of `url` free of `?`.
   */
  function StripQuery(url: string): (path: string)
    ensures path <= url
    ensures '?' !in path
    ensures path == url || url[|path|] == '?'
  {
    url[..IndexOf(url, '?')]
  }

  /**
   * `s.split(c).pop()`: the text after the last `c` in `s`, which is the whole
   * of `s` when `c` does not occur. The result is the longest suffix of `s`
   * free of `c`.
   */
  function AfterLast(s: string, c: char): (r: string)
    ensures |r| <= |s| && r == s[|s| - |r|..]
    ensures c !in r
    ensures |r| < |s| ==> s[|s| - |r| - 1] == c
  {
    if s == [] then []
    else if s[|s| - 1] == c then []
    else AfterLast(s[..|s| - 1], c) + [s[|s| - 1]]
  }

  /** `s.endsWith(suffix)`. */
  predicate EndsWith(s: string, suffix: string) {
    |suffix| <= |s| && s[|s| - |suffix|..] == suffix
  }

  /** A string that ends in `suffix` contains its first character. */
  lemma EndsWithContainsFirst(s: string, suffix: string)
    requires |suffix| > 0
    ensures EndsWith(s, suffix) ==> suffix[0] in s
  {
    if EndsWith(s, suffix) {
      assert s[|s| - |suffix|] == suffix[0];
    }
  }

  /**
   * The two ways the handlers test for a file type agree once the path holds
   * a dot: the text after the last `.` is the extension of `suffix` (a `.`
   * followed by dot-free text) exactly when the path ends in `suffix`. A path
   * with no dot at all differs: there `split('.').pop()` is the whole path.
   */
  lemma {:induction false} AfterLastDotIsSuffixTest(path: string, suffix: string)
    requires '.' in path
    requires |suffix| > 0 && suffix[0] == '.' && '.' !in suffix[1..]
    ensures AfterLast(path, '.') == suffix[1..] <==> EndsWith(path, suffix)
  {
    var r := AfterLast(path, '.');
    var ext := suffix[1..];
    if EndsWith(path, suffix) {
      var n := |path|;
      assert path[n - |suffix|..] == suffix;
      assert path[n - |ext| - 1] == '.';
      assert path[n - |ext|..] == ext;
    }
    if r == ext {
      assert suffix == [path[|path| - |r| - 1]] + r;
    }
  }

  /** With no dot in the path, `split('.').pop()` is the whole path. */
  lemma {:induction false} AfterLastWithoutSeparator(s: string, c: char)
    requires c !in s
    ensures AfterLast(s, c) == s
  {
  }
}
