/** The specification of `sweep` and `removeIfMatches`
    (content_script.js:41-45, 119-143) as functions of the removed set. The
    method that performs a sweep on the page is `ContentScript.Page.Sweep`. */
module Sweeper {
  import opened Wrappers
  import opened Text
  import opened Urls
  import opened Dom
  import opened SettingsCache
  import opened Classifier

  function TagSelector(tag: string): Selector {
    Selector(Some(tag), AnyAttrs)
  }

  /** The selector list queried on YouTube (content_script.js:130). */
  const YouTubeCandidates: seq<Selector> := [
    TagSelector("YTD-GUIDE-ENTRY-RENDERER"),
    TagSelector("YTD-RICH-SHELF-RENDERER"),
    TagSelector("YTD-VIDEO-RENDERER"),
    TagSelector("YTD-COMPACT-VIDEO-RENDERER"),
    TagSelector("YTD-GRID-VIDEO-RENDERER")]

  /** The selector list queried on Instagram (content_script.js:138). */
  const InstagramCandidates: seq<Selector> := [
    TagSelector("MAIN"),
    TagSelector("ARTICLE"),
    Selector(Some("DIV"), AttrEquals("role", "menuitem")),
    TagSelector("SECTION")]

  /** The root offers `querySelectorAll` (documents and elements do, text
      nodes do not). */
  predicate HasQueryApi(n: Node) {
    n.kind != TextNode
  }

  /** `removeIfMatches(c, looksLikeShortVideo)`: the candidate is removed when
      the predicate accepts it in the current tree, unless testing or removing
      it raises (`faulty`), in which case the tree is left as it was. */
  function RemoveIfMatches(t: Tree, removed: set<NodeId>, hostname: string, s: Settings,
                           faulty: set<NodeId>, c: NodeId): (r: set<NodeId>)
    requires t.Valid() && c < |t.nodes|
    ensures c in r <==> c in removed || (c !in faulty && LooksLikeShortVideo(t, removed, hostname, s, Some(c)))
    ensures r - {c} == removed - {c}
  {
    if c !in faulty && LooksLikeShortVideo(t, removed, hostname, s, Some(c)) then removed + {c} else removed
  }

  /** All candidates lie in the tree. */
  predicate InTree(t: Tree, cs: seq<NodeId>) {
    forall k :: 0 <= k < |cs| ==> cs[k] < |t.nodes|
  }

  /** The `for (const el of list) removeIfMatches(el, ...)` loop over a fixed
      candidate list: each candidate is tested in the tree as the earlier
      candidates left it. */
  function SweepOver(t: Tree, removed: set<NodeId>, hostname: string, s: Settings,
                     faulty: set<NodeId>, cs: seq<NodeId>): (r: set<NodeId>)
    requires t.Valid() && InTree(t, cs)
    ensures removed <= r
    ensures forall c :: c in r && c !in removed ==> c in cs && c !in faulty
    decreases |cs|
  {
    if cs == [] then removed
    else
      var before := SweepOver(t, removed, hostname, s, faulty, cs[..|cs| - 1]);
      RemoveIfMatches(t, before, hostname, s, faulty, cs[|cs| - 1])
  }

  /** The sweep is skipped outright: the root cannot be queried, or every flag
      of the current site is off (content_script.js:120-126). */
  function SweepSkipped(t: Tree, hostname: string, s: Settings, root: NodeId): (b: bool)
    requires root < |t.nodes|
    ensures b && HasQueryApi(t.nodes[root]) ==> IsYouTubeHost(hostname) || IsInstagramHost(hostname)
    ensures !b ==> HasQueryApi(t.nodes[root])
    ensures b && HasQueryApi(t.nodes[root]) ==>
      || (IsYouTubeHost(hostname) && !s.blockYouTubeShorts)
      || (IsInstagramHost(hostname) && !s.blockInstagramReels && !s.blockInstagramCompletely)
  {
    || !HasQueryApi(t.nodes[root])
    || (IsYouTubeHost(hostname) && !s.blockYouTubeShorts)
    || (IsInstagramHost(hostname) && !s.blockInstagramReels && !s.blockInstagramCompletely)
  }

  /** The removed set after `sweep(root)`. The YouTube list is queried and
      processed first; the Instagram list is queried afterwards, in the tree
      the YouTube pass left. */
  function SweepResult(t: Tree, removed: set<NodeId>, hostname: string, s: Settings,
                       faulty: set<NodeId>, root: NodeId): (r: set<NodeId>)
    requires t.Valid() && root < |t.nodes|
    ensures removed <= r
    ensures forall c :: c in r && c !in removed ==> c < |t.nodes| && c != root && c !in faulty
  {
    if SweepSkipped(t, hostname, s, root) then removed
    else
      var afterYouTube :=
        if IsYouTubeHost(hostname)
        then SweepOver(t, removed, hostname, s, faulty, Select(t, removed, root, YouTubeCandidates))
        else removed;
      if IsInstagramHost(hostname)
      then SweepOver(t, afterYouTube, hostname, s, faulty, Select(t, afterYouTube, root, InstagramCandidates))
      else afterYouTube
  }

  /** Sweeping the list `a + b` is sweeping `a`, then `b` in the tree `a` left. */
  lemma {:induction false} SweepOverAppend(t: Tree, removed: set<NodeId>, hostname: string, s: Settings,
                                           faulty: set<NodeId>, a: seq<NodeId>, b: seq<NodeId>)
    requires t.Valid() && InTree(t, a) && InTree(t, b)
    ensures InTree(t, a + b)
    ensures SweepOver(t, removed, hostname, s, faulty, a + b)
         == SweepOver(t, SweepOver(t, removed, hostname, s, faulty, a), hostname, s, faulty, b)
    decreases |b|
  {
    assert InTree(t, a + b) by {
      forall k | 0 <= k < |a + b| ensures (a + b)[k] < |t.nodes| {
        if k < |a| { assert (a + b)[k] == a[k]; } else { assert (a + b)[k] == b[k - |a|]; }
      }
    }
    if b == [] {
      assert a + b == a;
    } else {
      var b' := b[..|b| - 1];
      assert (a + b)[..|a + b| - 1] == a + b';
      assert (a + b)[|a + b| - 1] == b[|b| - 1];
      SweepOverAppend(t, removed, hostname, s, faulty, a, b');
    }
  }

  /** In a list without repetitions, the element at position `k` appears
      neither before nor after it. */
  lemma DistinctElsewhere(cs: seq<NodeId>, k: nat)
    requires k < |cs|
    requires forall i, j :: 0 <= i < j < |cs| ==> cs[i] != cs[j]
    ensures cs[k] !in cs[..k] && cs[k] !in cs[k + 1..]
  {
    forall i | 0 <= i < |cs| && i != k ensures cs[i] != cs[k] {
      if i < k { assert cs[i] != cs[k]; } else { assert cs[k] != cs[i]; }
    }
  }

  /** The sweep removes exactly the candidates the predicate accepted when
      their turn came: candidate `cs[k]` ends up removed iff it already was,
      or it does not raise and the predicate holds of it in the tree that the
      first `k` candidates left. Candidates are distinct, as
      `querySelectorAll` returns each node once. */
  lemma SweepOverExact(t: Tree, removed: set<NodeId>, hostname: string, s: Settings,
                       faulty: set<NodeId>, cs: seq<NodeId>, k: nat)
    requires t.Valid() && InTree(t, cs) && k < |cs|
    requires forall i, j :: 0 <= i < j < |cs| ==> cs[i] != cs[j]
    ensures InTree(t, cs[..k])
    ensures cs[k] in SweepOver(t, removed, hostname, s, faulty, cs) <==>
      cs[k] in removed ||
      (cs[k] !in faulty && LooksLikeShortVideo(t, SweepOver(t, removed, hostname, s, faulty, cs[..k]), hostname, s, Some(cs[k])))
  {
    var head, tail := cs[..k + 1], cs[k + 1..];
    assert cs == head + tail;
    assert head[..k] == cs[..k];
    SweepOverAppend(t, removed, hostname, s, faulty, head, tail);
    var pre := SweepOver(t, removed, hostname, s, faulty, cs[..k]);
    var mid := SweepOver(t, removed, hostname, s, faulty, head);
    assert mid == RemoveIfMatches(t, pre, hostname, s, faulty, cs[k]);
    DistinctElsewhere(cs, k);
    assert cs[k] in pre <==> cs[k] in removed;
  }

  /** Unless Instagram reels blocking is active, a candidate the sweep left in
      place is harmless in the tree the sweep leaves behind. */
  lemma {:induction false} SweepOverSurvivors(t: Tree, removed: set<NodeId>, hostname: string, s: Settings,
                                              faulty: set<NodeId>, cs: seq<NodeId>)
    requires t.Valid() && InTree(t, cs)
    requires MonotoneSettings(hostname, s)
    ensures var out := SweepOver(t, removed, hostname, s, faulty, cs);
      forall c :: c in cs && c !in out ==>
        c in faulty || !LooksLikeShortVideo(t, out, hostname, s, Some(c))
    decreases |cs|
  {
    if cs != [] {
      var init := cs[..|cs| - 1];
      var x := cs[|cs| - 1];
      var pre := SweepOver(t, removed, hostname, s, faulty, init);
      var out := SweepOver(t, removed, hostname, s, faulty, cs);
      SweepOverSurvivors(t, removed, hostname, s, faulty, init);
      forall c | c in cs && c !in out
        ensures c in faulty || !LooksLikeShortVideo(t, out, hostname, s, Some(c))
      {
        if c != x {
          assert c in init;
        }
        if c !in faulty && LooksLikeShortVideo(t, out, hostname, s, Some(c)) {
          VerdictAntitone(t, pre, out, hostname, s, c);
        }
      }
    }
  }

  /** A sweep over candidates that are all harmless (or raise) removes
      nothing. */
  lemma {:induction false} SweepOverStable(t: Tree, removed: set<NodeId>, hostname: string, s: Settings,
                                           faulty: set<NodeId>, cs: seq<NodeId>)
    requires t.Valid() && InTree(t, cs)
    requires forall c :: c in cs ==> c in faulty || !LooksLikeShortVideo(t, removed, hostname, s, Some(c))
    ensures SweepOver(t, removed, hostname, s, faulty, cs) == removed
    decreases |cs|
  {
    if cs != [] {
      SweepOverStable(t, removed, hostname, s, faulty, cs[..|cs| - 1]);
      assert cs[|cs| - 1] in cs;
    }
  }

  /** A skipped sweep changes nothing: on a site whose flags are all off, or
      from a root without `querySelectorAll`. */
  lemma SkippedSweepRemovesNothing(t: Tree, removed: set<NodeId>, hostname: string, s: Settings,
                                   faulty: set<NodeId>, root: NodeId)
    requires t.Valid() && root < |t.nodes|
    requires SweepSkipped(t, hostname, s, root) || (!IsYouTubeHost(hostname) && !IsInstagramHost(hostname))
    ensures SweepResult(t, removed, hostname, s, faulty, root) == removed
  {
  }

  /** What a sweep may remove: only candidates of the site's selector lists
      that lay strictly below the root when the sweep began, never the root
      itself, and never a candidate whose test or removal raised. */
  lemma SweepRemovesOnlyCandidates(t: Tree, removed: set<NodeId>, hostname: string, s: Settings,
                                   faulty: set<NodeId>, root: NodeId)
    requires t.Valid() && root < |t.nodes|
    ensures var out := SweepResult(t, removed, hostname, s, faulty, root);
      && removed <= out
      && forall c :: c in out && c !in removed ==>
           && c < |t.nodes| && c != root && c !in faulty
           && IsDescendant(t, removed, c, root)
           && ((IsYouTubeHost(hostname) && MatchesAny(t.nodes[c], YouTubeCandidates))
               || (IsInstagramHost(hostname) && MatchesAny(t.nodes[c], InstagramCandidates)))
  {
    var out := SweepResult(t, removed, hostname, s, faulty, root);
    if !SweepSkipped(t, hostname, s, root) {
      var afterYouTube :=
        if IsYouTubeHost(hostname)
        then SweepOver(t, removed, hostname, s, faulty, Select(t, removed, root, YouTubeCandidates))
        else removed;
      forall c | c in out && c !in removed
        ensures c < |t.nodes| && c != root && c !in faulty && IsDescendant(t, removed, c, root)
        ensures (IsYouTubeHost(hostname) && MatchesAny(t.nodes[c], YouTubeCandidates))
             || (IsInstagramHost(hostname) && MatchesAny(t.nodes[c], InstagramCandidates))
      {
        if c !in afterYouTube {
          DescendantAntitone(t, removed, afterYouTube, c, root);
        }
      }
    }
  }

  /** Every candidate found below the root in a tree with more removals was a
      candidate of the original tree and has not been removed. */
  lemma LaterCandidates(t: Tree, removed: set<NodeId>, more: set<NodeId>, root: NodeId, sels: seq<Selector>)
    requires t.Valid() && removed <= more
    ensures forall c :: c in Select(t, more, root, sels) ==> c in Select(t, removed, root, sels) && c !in more
  {
    forall c | c in Select(t, more, root, sels)
      ensures c in Select(t, removed, root, sels) && c !in more
    {
      DescendantAntitone(t, removed, more, c, root);
    }
  }

  /** Sweeping twice with unchanged settings removes nothing the first sweep
      did not, unless Instagram reels blocking is active on the page
      (`InstagramSecondSweepRemovesMore` shows that case). */
  lemma SweepIdempotent(t: Tree, removed: set<NodeId>, hostname: string, s: Settings,
                        faulty: set<NodeId>, root: NodeId)
    requires t.Valid() && root < |t.nodes|
    requires MonotoneSettings(hostname, s)
    ensures var once := SweepResult(t, removed, hostname, s, faulty, root);
      SweepResult(t, once, hostname, s, faulty, root) == once
  {
    if !SweepSkipped(t, hostname, s, root) {
      var ytFirst := Select(t, removed, root, YouTubeCandidates);
      var r1 := if IsYouTubeHost(hostname) then SweepOver(t, removed, hostname, s, faulty, ytFirst) else removed;
      var igFirst := Select(t, r1, root, InstagramCandidates);
      var r2 := if IsInstagramHost(hostname) then SweepOver(t, r1, hostname, s, faulty, igFirst) else r1;
      assert r2 == SweepResult(t, removed, hostname, s, faulty, root);
      if IsYouTubeHost(hostname) {
        YouTubePassStable(t, removed, r1, r2, hostname, s, faulty, root);
      }
      if IsInstagramHost(hostname) {
        SweepOverSurvivors(t, r1, hostname, s, faulty, igFirst);
        var igSecond := Select(t, r2, root, InstagramCandidates);
        LaterCandidates(t, r1, r2, root, InstagramCandidates);
        SweepOverStable(t, r2, hostname, s, faulty, igSecond);
      }
    }
  }

  /** The YouTube pass of a second sweep removes nothing: every candidate it
      lists survived the first pass, was harmless after it, and stays
      harmless after the Instagram pass removed more. */
  lemma YouTubePassStable(t: Tree, removed: set<NodeId>, r1: set<NodeId>, r2: set<NodeId>, hostname: string,
                          s: Settings, faulty: set<NodeId>, root: NodeId)
    requires t.Valid() && root < |t.nodes|
    requires MonotoneSettings(hostname, s)
    requires r1 == SweepOver(t, removed, hostname, s, faulty, Select(t, removed, root, YouTubeCandidates))
    requires r1 <= r2
    ensures SweepOver(t, r2, hostname, s, faulty, Select(t, r2, root, YouTubeCandidates)) == r2
  {
    var ytFirst := Select(t, removed, root, YouTubeCandidates);
    SweepOverSurvivors(t, removed, hostname, s, faulty, ytFirst);
    var ytSecond := Select(t, r2, root, YouTubeCandidates);
    LaterCandidates(t, removed, r2, root, YouTubeCandidates);
    forall c | c in ytSecond
      ensures c in faulty || !LooksLikeShortVideo(t, r2, hostname, s, Some(c))
    {
      if c !in faulty && LooksLikeShortVideo(t, r2, hostname, s, Some(c)) {
        VerdictAntitone(t, r1, r2, hostname, s, c);
      }
    }
    SweepOverStable(t, r2, hostname, s, faulty, ytSecond);
  }

  /** A page section in which the Instagram rules disagree with themselves:
      an article (1) holding a menu item (2) that links to the Reels feed (3),
      and a link to one reel (4). */
  const NavInArticle := Tree([
    Node(DocumentNode, "", map[], None),
    Node(ElementNode, "ARTICLE", map[], Some(0)),
    Node(ElementNode, "DIV", map["role" := "menuitem"], Some(1)),
    Node(ElementNode, "A", map["href" := "/reels/"], Some(2)),
    Node(ElementNode, "A", map["href" := "/reel/x"], Some(1))])

  lemma NavInArticleValid()
    ensures NavInArticle.Valid()
  {
    var t := NavInArticle;
    assert t.BuiltAncestorOrSelf(1, 2) && t.BuiltAncestorOrSelf(1, 3);
    forall i | 0 < i < |t.nodes| && t.nodes[i].parent.Some?
      ensures t.BuiltAncestorOrSelf(t.nodes[i].parent.value, i - 1)
    {
      assert i == 1 || i == 2 || i == 3 || i == 4;
    }
  }

  /** Only `MAIN`, `ARTICLE`, `DIV` and `SECTION` elements can be Instagram
      candidates. */
  lemma InstagramCandidateTags(n: Node)
    requires MatchesAny(n, InstagramCandidates)
    ensures n.tag in {"MAIN", "ARTICLE", "DIV", "SECTION"}
  {
    var k :| 0 <= k < |InstagramCandidates| && Matches(n, InstagramCandidates[k]);
    assert k == 0 || k == 1 || k == 2 || k == 3;
  }

  /** Neither link of `NavInArticle` is an Instagram candidate. */
  lemma NavInArticleTail(removed: set<NodeId>)
    ensures NavInArticle.Valid()
    ensures SelectFrom(NavInArticle, removed, 0, InstagramCandidates, 3) == []
  {
    var t, c := NavInArticle, InstagramCandidates;
    NavInArticleValid();
    assert !MatchesAny(t.nodes[4], c) by {
      if MatchesAny(t.nodes[4], c) { InstagramCandidateTags(t.nodes[4]); }
    }
    assert SelectFrom(t, removed, 0, c, 4) == [];
    assert !MatchesAny(t.nodes[3], c) by {
      if MatchesAny(t.nodes[3], c) { InstagramCandidateTags(t.nodes[3]); }
    }
  }

  /** The Instagram candidates of `NavInArticle`: the article and the menu
      item. */
  lemma NavInArticleCandidates()
    ensures NavInArticle.Valid()
    ensures Select(NavInArticle, {}, 0, InstagramCandidates) == [1, 2]
  {
    var t, c := NavInArticle, InstagramCandidates;
    NavInArticleTail({});
    assert IsDescendant(t, {}, 2, 0) && Matches(t.nodes[2], c[2]);
    assert SelectFrom(t, {}, 0, c, 2) == [2];
    assert IsDescendant(t, {}, 1, 0) && Matches(t.nodes[1], c[1]);
    assert SelectFrom(t, {}, 0, c, 1) == [1, 2];
    assert !IsDescendant(t, {}, 0, 0);
  }

  /** Once the menu item is removed, the article is the only candidate. */
  lemma NavInArticleLaterCandidates()
    ensures NavInArticle.Valid()
    ensures Select(NavInArticle, {2}, 0, InstagramCandidates) == [1]
  {
    var t, c := NavInArticle, InstagramCandidates;
    NavInArticleTail({2});
    assert !IsDescendant(t, {2}, 2, 0);
    assert SelectFrom(t, {2}, 0, c, 2) == [];
    assert IsDescendant(t, {2}, 1, 0) && Matches(t.nodes[1], c[1]);
    assert SelectFrom(t, {2}, 0, c, 1) == [1];
    assert !IsDescendant(t, {2}, 0, 0);
  }

  /** The article still holds the Reels link, so only the navigation rule is
      asked, and the article is not a navigation entry. */
  lemma NavInArticleArticleKept(h: string, s: Settings)
    requires IsInstagramHost(h) && !IsYouTubeHost(h) && s.blockInstagramReels
    ensures NavInArticle.Valid()
    ensures !LooksLikeShortVideo(NavInArticle, {}, h, s, Some(1))
  {
    var t := NavInArticle;
    NavInArticleValid();
    assert QuerySelector(t, {}, 1, ReelsNavLink) by {
      assert IsDescendant(t, {}, 3, 1) && Matches(t.nodes[3], ReelsNavLink);
    }
    assert NavItem(t, {}, 1) == None by {
      assert !Matches(t.nodes[0], MenuItem) && !Matches(t.nodes[1], MenuItem);
      assert !Matches(t.nodes[0], NavDiv) && !Matches(t.nodes[1], NavDiv);
      assert ParentOf(t, {}, 0) == None && ParentOf(t, {}, 1) == Some(0);
      assert Closest(t, {}, 0, MenuItem) == None;
      assert Closest(t, {}, 0, NavDiv) == None;
    }
    assert !IsMainArea(t.nodes[1]);
  }

  /** The menu item holding the Reels link is its own navigation entry. */
  lemma NavInArticleMenuItemRemoved(h: string, s: Settings)
    requires IsInstagramHost(h) && s.blockInstagramReels
    ensures NavInArticle.Valid()
    ensures LooksLikeShortVideo(NavInArticle, {}, h, s, Some(2))
  {
    var t := NavInArticle;
    NavInArticleValid();
    assert QuerySelector(t, {}, 2, ReelsNavLink) by {
      assert IsDescendant(t, {}, 3, 2) && Matches(t.nodes[3], ReelsNavLink);
    }
    assert AttrIs(t.nodes[2], "role", "menuitem");
    ReelsMenuItemBlocked(t, {}, h, s, 2);
  }

  /** Once the menu item is gone the article rule is reached, and the article
      links to a reel. */
  lemma NavInArticleArticleRemovedLater(h: string, s: Settings)
    requires IsInstagramHost(h) && s.blockInstagramReels
    ensures NavInArticle.Valid()
    ensures LooksLikeShortVideo(NavInArticle, {2}, h, s, Some(1))
  {
    var t := NavInArticle;
    NavInArticleValid();
    assert !QuerySelector(t, {2}, 1, ReelsNavLink) by {
      forall d | 0 <= d < 5 && IsDescendant(t, {2}, d, 1) ensures !Matches(t.nodes[d], ReelsNavLink) {
        assert d != 3 by { assert !IsDescendant(t, {2}, 2, 1); }
      }
    }
    assert QuerySelector(t, {2}, 1, ReelLink) by {
      assert IsDescendant(t, {2}, 4, 1);
      assert StartsWith("/reel/x", "/reel/");
      assert Matches(t.nodes[4], ReelLink);
    }
    assert !IsMainArea(t.nodes[1]);
  }

  /** The first sweep of `NavInArticle` removes only the menu item. */
  lemma NavInArticleFirstSweep(h: string, s: Settings)
    requires IsInstagramHost(h) && !IsYouTubeHost(h) && s.blockInstagramReels
    ensures NavInArticle.Valid()
    ensures SweepResult(NavInArticle, {}, h, s, {}, 0) == {2}
  {
    var t := NavInArticle;
    NavInArticleCandidates();
    NavInArticleArticleKept(h, s);
    NavInArticleMenuItemRemoved(h, s);
    assert !SweepSkipped(t, h, s, 0);
    assert [1, 2][..1] == [1];
    assert SweepOver(t, {}, h, s, {}, [1]) == {};
  }

  /** The second sweep of `NavInArticle` removes the article as well. */
  lemma NavInArticleSecondSweep(h: string, s: Settings)
    requires IsInstagramHost(h) && !IsYouTubeHost(h) && s.blockInstagramReels
    ensures NavInArticle.Valid()
    ensures SweepResult(NavInArticle, {2}, h, s, {}, 0) == {1, 2}
  {
    var t := NavInArticle;
    NavInArticleLaterCandidates();
    NavInArticleArticleRemovedLater(h, s);
    assert !SweepSkipped(t, h, s, 0);
  }

  /** With Instagram reels blocking on, whatever the other two flags, a second
      sweep of the same document with the same settings removes a node the
      first one kept, on any Instagram host that does not also name YouTube
      (`www.instagram.com` is one, by `Urls.InstagramHostExample`). The first sweep tests the article while it
      still holds the Reels link, so the navigation-entry rule answers "not
      the nav item" and the article rule is never reached; it then removes the
      menu item. The second sweep no longer finds the Reels link below the
      article and removes it by the article rule. */
  lemma InstagramSecondSweepRemovesMore(h: string, s: Settings)
    requires IsInstagramHost(h) && !IsYouTubeHost(h) && s.blockInstagramReels
    ensures NavInArticle.Valid()
    ensures SweepResult(NavInArticle, {}, h, s, {}, 0) == {2}
    ensures SweepResult(NavInArticle, {2}, h, s, {}, 0) == {1, 2}
  {
    NavInArticleFirstSweep(h, s);
    NavInArticleSecondSweep(h, s);
  }
}
