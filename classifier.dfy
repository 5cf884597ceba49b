/** `looksLikeShortVideo` (content_script.js:56-116): decides from markup
    signals alone whether one node is a unit of short-form video. The rules are
    checked in the source's order; on Instagram the navigation-entry rule
    returns its answer without consulting the later rules. */
module Classifier {
  import opened Wrappers
  import opened Text
  import opened Urls
  import opened Dom
  import opened SettingsCache

  /** `a[href="/shorts"]`: the Shorts entry of the YouTube sidebar. */
  const ShortsGuideLink := Selector(Some("A"), AttrEquals("href", "/shorts"))
  /** `a[href*="/shorts/"]`: a link to one Short. */
  const ShortsLink := Selector(Some("A"), AttrContains("href", "/shorts/"))
  /** `a[href="/reels/"]`: the Reels entry of the Instagram navigation. */
  const ReelsNavLink := Selector(Some("A"), AttrEquals("href", "/reels/"))
  /** `a[href*="/reel/"]`: a link to one reel. */
  const ReelLink := Selector(Some("A"), AttrContains("href", "/reel/"))
  /** `[data-testid*="reel"]`. */
  const ReelTestId := Selector(None, AttrContains("data-testid", "reel"))
  /** `[role="menuitem"]`. */
  const MenuItem := Selector(None, AttrEquals("role", "menuitem"))
  /** `div[class*="nav"]`. */
  const NavDiv := Selector(Some("DIV"), AttrContains("class", "nav"))

  /** The five renderer tags the YouTube rules look at. */
  const YouTubeRendererTags: set<string> := {"YTD-GUIDE-ENTRY-RENDERER", "YTD-RICH-SHELF-RENDERER",
    "YTD-VIDEO-RENDERER", "YTD-COMPACT-VIDEO-RENDERER", "YTD-GRID-VIDEO-RENDERER"}

  /** `el.tagName === tag`. */
  predicate HasTag(n: Node, tag: string) {
    n.kind == ElementNode && n.tag == tag
  }

  /** `el.getAttribute(name) === value`. */
  predicate AttrIs(n: Node, name: string, value: string) {
    n.kind == ElementNode && name in n.attrs && n.attrs[name] == value
  }

  /** The YouTube rules (content_script.js:63-82): a sidebar entry linking to
      `/shorts`, a shelf marked `is-shorts`, or a video renderer (feed,
      compact or grid) containing a link to a Short. */
  function YouTubeShortsSignal(t: Tree, removed: set<NodeId>, e: NodeId): (b: bool)
    requires t.Valid() && e < |t.nodes|
    ensures b ==> (t.nodes[e].kind == ElementNode && t.nodes[e].tag in YouTubeRendererTags)
    ensures b ==> "is-shorts" in t.nodes[e].attrs
                  || QuerySelector(t, removed, e, ShortsGuideLink) || QuerySelector(t, removed, e, ShortsLink)
  {
    var n := t.nodes[e];
    || (HasTag(n, "YTD-GUIDE-ENTRY-RENDERER") && QuerySelector(t, removed, e, ShortsGuideLink))
    || (HasTag(n, "YTD-RICH-SHELF-RENDERER") && "is-shorts" in n.attrs)
    || ((HasTag(n, "YTD-VIDEO-RENDERER") || HasTag(n, "YTD-COMPACT-VIDEO-RENDERER"))
        && QuerySelector(t, removed, e, ShortsLink))
    || (HasTag(n, "YTD-GRID-VIDEO-RENDERER") && QuerySelector(t, removed, e, ShortsLink))
  }

  /** The primary content area of Instagram: a `MAIN` element or one with
      `role="main"`. */
  predicate IsMainArea(n: Node) {
    HasTag(n, "MAIN") || AttrIs(n, "role", "main")
  }

  /** `el.closest('[role="menuitem"]') || el.closest('div[class*="nav"]')`:
      the nearest menu item from `e` upward, or failing any, the nearest `nav`
      div. It is `e` itself exactly when `e` is a menu item, or when nothing
      from `e` upward is a menu item and `e` is a `nav` div. */
  function NavItem(t: Tree, removed: set<NodeId>, e: NodeId): (r: Option<NodeId>)
    requires t.Valid() && e < |t.nodes|
    ensures r.Some? ==> r.value < |t.nodes| && (r.value == e || IsDescendant(t, removed, e, r.value))
    ensures r.Some? ==> Matches(t.nodes[r.value], MenuItem) || Matches(t.nodes[r.value], NavDiv)
    ensures r == Some(e) <==>
      || Matches(t.nodes[e], MenuItem)
      || (&& (forall a: NodeId :: a < |t.nodes| && IsDescendant(t, removed, e, a) ==> !Matches(t.nodes[a], MenuItem))
          && Matches(t.nodes[e], NavDiv))
  {
    match Closest(t, removed, e, MenuItem)
    case Some(m) => Some(m)
    case None => Closest(t, removed, e, NavDiv)
  }

  /** The Instagram rules (content_script.js:86-112), in order. The
      navigation-entry test decides alone whenever `e` contains the Reels
      link. */
  function InstagramVerdict(t: Tree, removed: set<NodeId>, s: Settings, e: NodeId): (b: bool)
    requires t.Valid() && e < |t.nodes|
    ensures b ==> (s.blockInstagramCompletely && IsMainArea(t.nodes[e])) || s.blockInstagramReels
    ensures s.blockInstagramCompletely && IsMainArea(t.nodes[e]) ==> b
    ensures b && !IsMainArea(t.nodes[e]) ==>
      || QuerySelector(t, removed, e, ReelsNavLink)
      || QuerySelector(t, removed, e, ReelLink)
      || QuerySelector(t, removed, e, ReelTestId)
    ensures b && !IsMainArea(t.nodes[e]) && !QuerySelector(t, removed, e, ReelsNavLink) ==>
      || (HasTag(t.nodes[e], "ARTICLE") && QuerySelector(t, removed, e, ReelLink))
      || QuerySelector(t, removed, e, ReelTestId)
  {
    var n := t.nodes[e];
    if s.blockInstagramCompletely && IsMainArea(n) then true
    else if s.blockInstagramReels then
      if QuerySelector(t, removed, e, ReelsNavLink) then NavItem(t, removed, e) == Some(e)
      else (HasTag(n, "ARTICLE") && QuerySelector(t, removed, e, ReelLink))
           || QuerySelector(t, removed, e, ReelTestId)
    else false
  }

  /** `looksLikeShortVideo(el)` on the page whose host name is `hostname`,
      with the content script's current `settings`. */
  function LooksLikeShortVideo(t: Tree, removed: set<NodeId>, hostname: string, s: Settings, el: Option<NodeId>): (b: bool)
    requires t.Valid() && (el.Some? ==> el.value < |t.nodes|)
    ensures b ==> el.Some?
    ensures b ==>
      || (IsYouTubeHost(hostname) && s.blockYouTubeShorts)
      || (IsInstagramHost(hostname) && (s.blockInstagramReels || s.blockInstagramCompletely))
  {
    match el
    case None => false
    case Some(e) =>
      || (IsYouTubeHost(hostname) && s.blockYouTubeShorts && YouTubeShortsSignal(t, removed, e))
      || (IsInstagramHost(hostname) && InstagramVerdict(t, removed, s, e))
  }

  /** On a YouTube page (whose host does not also name Instagram) a node is
      blocked exactly when the Shorts flag is on and one of the three YouTube
      rules holds. */
  lemma YouTubeRules(t: Tree, removed: set<NodeId>, hostname: string, s: Settings, e: NodeId)
    requires t.Valid() && e < |t.nodes|
    requires IsYouTubeHost(hostname) && !IsInstagramHost(hostname)
    ensures LooksLikeShortVideo(t, removed, hostname, s, Some(e)) <==>
      s.blockYouTubeShorts &&
      (|| (HasTag(t.nodes[e], "YTD-GUIDE-ENTRY-RENDERER") && QuerySelector(t, removed, e, ShortsGuideLink))
       || (HasTag(t.nodes[e], "YTD-RICH-SHELF-RENDERER") && "is-shorts" in t.nodes[e].attrs)
       || ((HasTag(t.nodes[e], "YTD-VIDEO-RENDERER") || HasTag(t.nodes[e], "YTD-COMPACT-VIDEO-RENDERER")
            || HasTag(t.nodes[e], "YTD-GRID-VIDEO-RENDERER"))
           && QuerySelector(t, removed, e, ShortsLink)))
  {
  }

  /** On an Instagram page with reels blocking off, only the primary content
      area can be blocked, and only by complete blocking. */
  lemma InstagramWithoutReelsFlag(t: Tree, removed: set<NodeId>, hostname: string, s: Settings, e: NodeId)
    requires t.Valid() && e < |t.nodes|
    requires IsInstagramHost(hostname) && !IsYouTubeHost(hostname)
    requires !s.blockInstagramReels
    ensures LooksLikeShortVideo(t, removed, hostname, s, Some(e)) <==>
      s.blockInstagramCompletely && IsMainArea(t.nodes[e])
  {
  }

  /** On an Instagram page, a node holding the Reels navigation link is judged
      by the navigation-entry rule alone: it is blocked exactly when it is
      itself the nearest menu item (or, lacking one, the nearest `nav` div).
      The article and `data-testid` rules are never reached for it. */
  lemma NavEntryDecidesAlone(t: Tree, removed: set<NodeId>, hostname: string, s: Settings, e: NodeId)
    requires t.Valid() && e < |t.nodes|
    requires IsInstagramHost(hostname) && !IsYouTubeHost(hostname)
    requires s.blockInstagramReels && !(s.blockInstagramCompletely && IsMainArea(t.nodes[e]))
    requires QuerySelector(t, removed, e, ReelsNavLink)
    ensures LooksLikeShortVideo(t, removed, hostname, s, Some(e)) <==> NavItem(t, removed, e) == Some(e)
  {
  }

  /** On an Instagram page with reels blocking on, a node that does not hold
      the Reels navigation link is blocked exactly when it is a main area under
      complete blocking, an `ARTICLE` holding a reel link, or a node holding an
      element whose test id names a reel. */
  lemma InstagramRules(t: Tree, removed: set<NodeId>, hostname: string, s: Settings, e: NodeId)
    requires t.Valid() && e < |t.nodes|
    requires IsInstagramHost(hostname) && !IsYouTubeHost(hostname) && s.blockInstagramReels
    requires !QuerySelector(t, removed, e, ReelsNavLink)
    ensures LooksLikeShortVideo(t, removed, hostname, s, Some(e)) <==>
      || (s.blockInstagramCompletely && IsMainArea(t.nodes[e]))
      || (HasTag(t.nodes[e], "ARTICLE") && QuerySelector(t, removed, e, ReelLink))
      || QuerySelector(t, removed, e, ReelTestId)
  {
  }

  /** A menu item that contains the Reels link is always its own navigation
      entry, so it is blocked whenever reels blocking is on. */
  lemma ReelsMenuItemBlocked(t: Tree, removed: set<NodeId>, hostname: string, s: Settings, e: NodeId)
    requires t.Valid() && e < |t.nodes|
    requires IsInstagramHost(hostname) && s.blockInstagramReels
    requires AttrIs(t.nodes[e], "role", "menuitem")
    requires QuerySelector(t, removed, e, ReelsNavLink)
    ensures LooksLikeShortVideo(t, removed, hostname, s, Some(e))
  {
    assert Matches(t.nodes[e], MenuItem);
    assert Closest(t, removed, e, MenuItem) == Some(e);
  }

  /** Settings under which removing nodes can never turn a negative verdict
      positive. Only the Instagram reels rules can: the navigation-entry rule
      answers early for a node holding the Reels link, and once that link or
      an ancestor is removed the later rules are reached. */
  predicate MonotoneSettings(hostname: string, s: Settings) {
    !(IsInstagramHost(hostname) && s.blockInstagramReels)
  }

  /** Unless Instagram reels blocking is active, removing nodes can only turn
      a positive verdict negative: a node found harmless stays harmless. */
  lemma VerdictAntitone(t: Tree, removed: set<NodeId>, more: set<NodeId>, hostname: string, s: Settings, e: NodeId)
    requires t.Valid() && e < |t.nodes| && removed <= more
    requires MonotoneSettings(hostname, s)
    requires LooksLikeShortVideo(t, more, hostname, s, Some(e))
    ensures LooksLikeShortVideo(t, removed, hostname, s, Some(e))
  {
    if IsYouTubeHost(hostname) && s.blockYouTubeShorts && YouTubeShortsSignal(t, more, e) {
      if QuerySelector(t, more, e, ShortsGuideLink) {
        QuerySelectorAntitone(t, removed, more, e, ShortsGuideLink);
      }
      if QuerySelector(t, more, e, ShortsLink) {
        QuerySelectorAntitone(t, removed, more, e, ShortsLink);
      }
    }
  }
}
