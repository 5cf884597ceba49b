/** The host and URL tests of the content script (content_script.js:47-53 and
    the `hostname.includes(...)` guards). */
module Urls {
  import opened Text

  /** `hostname.includes('youtube.com')`: the host name spells out the site's
      domain at some position. */
  function IsYouTubeHost(hostname: string): (b: bool)
    ensures b <==> exists i :: OccursAt(hostname, "youtube.com", i)
  {
    IncludesIffOccurs(hostname, "youtube.com");
    Includes(hostname, "youtube.com")
  }

  /** `hostname.includes('instagram.com')`. */
  function IsInstagramHost(hostname: string): (b: bool)
    ensures b <==> exists i :: OccursAt(hostname, "instagram.com", i)
  {
    IncludesIffOccurs(hostname, "instagram.com");
    Includes(hostname, "instagram.com")
  }

  /** `isYouTubeShortsURL`: the URL names a Shorts page, either by the
      `/shorts/` path segment or by a `shorts?` query marker, at some index.
      It is defined on every string. */
  function IsYouTubeShortsURL(url: string): (b: bool)
    ensures b <==> (exists i :: OccursAt(url, "/shorts/", i)) || (exists i :: OccursAt(url, "shorts?", i))
  {
    IncludesIffOccurs(url, "/shorts/");
    IncludesIffOccurs(url, "shorts?");
    Includes(url, "/shorts/") || Includes(url, "shorts?")
  }

  /** `isInstagramReelURL`: the URL names a single reel or the reels feed, by
      `/reel/` or `/reels/` at some index. It is defined on every string. */
  function IsInstagramReelURL(url: string): (b: bool)
    ensures b <==> (exists i :: OccursAt(url, "/reel/", i)) || (exists i :: OccursAt(url, "/reels/", i))
  {
    IncludesIffOccurs(url, "/reel/");
    IncludesIffOccurs(url, "/reels/");
    Includes(url, "/reel/") || Includes(url, "/reels/")
  }

  /** A URL classified as blocked stays blocked whatever is put before or
      after it (a scheme and host, a query string, a fragment). */
  lemma URLTestsInContext(prefix: string, url: string, suffix: string)
    ensures IsYouTubeShortsURL(url) ==> IsYouTubeShortsURL(prefix + url + suffix)
    ensures IsInstagramReelURL(url) ==> IsInstagramReelURL(prefix + url + suffix)
  {
    if Includes(url, "/shorts/") { IncludesInContext(prefix, url, suffix, "/shorts/"); }
    if Includes(url, "shorts?") { IncludesInContext(prefix, url, suffix, "shorts?"); }
    if Includes(url, "/reel/") { IncludesInContext(prefix, url, suffix, "/reel/"); }
    if Includes(url, "/reels/") { IncludesInContext(prefix, url, suffix, "/reels/"); }
  }

  /** Typical addresses: a Shorts watch page and the reels feed are
      recognised; an ordinary watch page and a short host name are not. */
  lemma URLExamples()
    ensures IsYouTubeShortsURL("https://www.youtube.com/shorts/abc")
    ensures IsInstagramReelURL("https://www.instagram.com/reels/")
    ensures !IsYouTubeShortsURL("/watch")
    ensures !IsInstagramHost("youtube.com")
  {
    IncludesAt("https://www.youtube.com/shorts/abc", "/shorts/", 23);
    IncludesAt("https://www.instagram.com/reels/", "/reels/", 25);
  }

  /** The Instagram web host names Instagram and not YouTube. */
  lemma InstagramHostExample()
    ensures IsInstagramHost("www.instagram.com")
    ensures !IsYouTubeHost("www.instagram.com")
  {
    var h := "www.instagram.com";
    assert h[4..17] == "instagram.com";
    IncludesAt(h, "instagram.com", 4);
    assert 'y' !in h;
    NotIncludesMissingFirst(h, "youtube.com");
  }
}
