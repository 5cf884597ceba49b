/** The content script running in one YouTube or Instagram page
    (content_script.js): its settings cache, the sweep over the page's tree,
    the entry decision of `initBlocking`, the `settingsChanged` listener and
    the overlay countdown. The page and the script's globals are one object
    whose fields the handlers update in place. */
module ContentScript {
  import opened Wrappers
  import opened Urls
  import opened Dom
  import opened SettingsCache
  import opened Messages
  import opened Classifier
  import opened Sweeper
  import Countdown

  const YouTubeHome := "https://www.youtube.com"
  const InstagramHome := "https://www.instagram.com"
  const GoogleHome := "https://www.google.com"

  /** What `initBlocking` does on a page: show the overlay for a content type
      with its redirect address, or sweep the document. */
  datatype Decision = ShowOverlay(contentType: string, redirectUrl: string) | SweepDocument

  /** The checks of `initBlocking` (content_script.js:193-212), in order. An
      overlay is only ever chosen on one of the two sites with one of its
      flags on, and only for a blocked address unless Instagram is blocked
      completely. The overlay sends the viewer back to the home page of the
      site being blocked, except under complete Instagram blocking, which
      leaves the site for a search engine. */
  function Decide(hostname: string, href: string, s: Settings): (r: Decision)
    ensures r.ShowOverlay? ==>
      || (IsYouTubeHost(hostname) && s.blockYouTubeShorts && IsYouTubeShortsURL(href))
      || (IsInstagramHost(hostname) && s.blockInstagramReels && IsInstagramReelURL(href))
      || (IsInstagramHost(hostname) && s.blockInstagramCompletely)
    ensures r.ShowOverlay? ==> r.redirectUrl in {YouTubeHome, InstagramHome, GoogleHome}
  {
    if IsYouTubeHost(hostname) && s.blockYouTubeShorts && IsYouTubeShortsURL(href) then
      ShowOverlay("YouTube Shorts", YouTubeHome)
    else if IsInstagramHost(hostname) && s.blockInstagramReels && IsInstagramReelURL(href) then
      ShowOverlay("Instagram Reels", InstagramHome)
    else if IsInstagramHost(hostname) && s.blockInstagramCompletely then
      ShowOverlay("Instagram", GoogleHome)
    else
      SweepDocument
  }

  /** The priority of the three overlays: each is chosen exactly when its own
      condition holds and no earlier one does, and the document is swept
      exactly when none holds. */
  lemma DecisionOrder(hostname: string, href: string, s: Settings)
    ensures var shorts := IsYouTubeHost(hostname) && s.blockYouTubeShorts && IsYouTubeShortsURL(href);
      var reels := IsInstagramHost(hostname) && s.blockInstagramReels && IsInstagramReelURL(href);
      var complete := IsInstagramHost(hostname) && s.blockInstagramCompletely;
      && (Decide(hostname, href, s) == ShowOverlay("YouTube Shorts", YouTubeHome) <==> shorts)
      && (Decide(hostname, href, s) == ShowOverlay("Instagram Reels", InstagramHome) <==> !shorts && reels)
      && (Decide(hostname, href, s) == ShowOverlay("Instagram", GoogleHome) <==> !shorts && !reels && complete)
      && (Decide(hostname, href, s) == SweepDocument <==> !shorts && !reels && !complete)
  {
  }

  /** With complete Instagram blocking on, every Instagram page is covered by
      an overlay, whatever its address: the reels flag only changes which one. */
  lemma CompleteBlockingCoversEveryPage(hostname: string, href: string, s: Settings)
    requires IsInstagramHost(hostname) && s.blockInstagramCompletely
    ensures Decide(hostname, href, s).ShowOverlay?
  {
  }

  /** The overlay shown over a blocked page: what it names as blocked, and the
      countdown to the redirect. */
  datatype BlockOverlay = BlockOverlay(contentType: string, countdown: Countdown.State)

  /** The document node, the default root of `sweep`. */
  const DocumentRoot: NodeId := 0

  class Page {
    /** The page's tree as loaded; removals are recorded in `removed`. */
    const dom: Tree
    /** `window.location.hostname`. */
    const hostname: string
    /** Whether `document.body` exists when the observer is installed. */
    const hasBody: bool

    /** The global `settings`. */
    var settings: Settings
    /** Nodes detached by `el.remove()`. */
    var removed: set<NodeId>
    /** The overlay most recently shown, with its countdown. */
    var overlay: Option<BlockOverlay>
    /** Every address assigned to `window.location.href`, in order. */
    var navigations: seq<string>
    /** How many mutation observers `initBlocking` has installed. */
    var observers: nat

    /** The tree is well formed and its first node is the document. */
    ghost predicate Valid() {
      dom.Valid() && |dom.nodes| > 0 && dom.nodes[DocumentRoot].kind == DocumentNode
    }

    /** A page as the script finds it: nothing removed, no overlay, and the
        settings the script declares before it has heard from the background
        context. */
    constructor (dom: Tree, hostname: string, hasBody: bool)
      requires dom.Valid() && |dom.nodes| > 0 && dom.nodes[DocumentRoot].kind == DocumentNode
      ensures Valid()
      ensures this.dom == dom && this.hostname == hostname && this.hasBody == hasBody
      ensures settings == InitialSettings && removed == {} && overlay == None
      ensures navigations == [] && observers == 0
    {
      this.dom := dom;
      this.hostname := hostname;
      this.hasBody := hasBody;
      settings := InitialSettings;
      removed := {};
      overlay := None;
      navigations := [];
      observers := 0;
    }

    /** `removeIfMatches(el, looksLikeShortVideo)`: `el` is removed when the
        predicate accepts it now, unless its test or removal raises. */
    method RemoveIfMatches(el: NodeId, faulty: set<NodeId>)
      requires Valid() && el < |dom.nodes|
      modifies this`removed
      ensures removed == Sweeper.RemoveIfMatches(dom, old(removed), hostname, settings, faulty, el)
    {
      if el !in faulty {
        var matches := LooksLikeShortVideo(dom, removed, hostname, settings, Some(el));
        if matches {
          removed := removed + {el};
        }
      }
    }

    /** `sweep(root)`: each candidate list is queried once and walked in
        document order, removing what the predicate accepts at its turn. */
    method Sweep(root: NodeId, faulty: set<NodeId>)
      requires Valid() && root < |dom.nodes|
      modifies this`removed
      ensures removed == SweepResult(dom, old(removed), hostname, settings, faulty, root)
    {
      if !HasQueryApi(dom.nodes[root]) {
        return;
      }
      if IsYouTubeHost(hostname) && !settings.blockYouTubeShorts {
        return;
      }
      if IsInstagramHost(hostname) && !settings.blockInstagramReels && !settings.blockInstagramCompletely {
        return;
      }
      if IsYouTubeHost(hostname) {
        var ytElements := Select(dom, removed, root, YouTubeCandidates);
        RemoveEach(ytElements, faulty);
      }
      if IsInstagramHost(hostname) {
        var instaElements := Select(dom, removed, root, InstagramCandidates);
        RemoveEach(instaElements, faulty);
      }
    }

    /** `for (const el of elements) removeIfMatches(el, looksLikeShortVideo)`:
        the candidates are tested one after the other, each in the tree the
        earlier ones left. */
    method RemoveEach(elements: seq<NodeId>, faulty: set<NodeId>)
      requires Valid() && InTree(dom, elements)
      modifies this`removed
      ensures removed == SweepOver(dom, old(removed), hostname, settings, faulty, elements)
    {
      for i := 0 to |elements|
        invariant removed == SweepOver(dom, old(removed), hostname, settings, faulty, elements[..i])
      {
        assert elements[..i + 1][..i] == elements[..i];
        RemoveIfMatches(elements[i], faulty);
      }
      assert elements[..|elements|] == elements;
    }

    /** `showBlockedMessage(contentType, redirectUrl)`: the overlay for
        `contentType` appears and its countdown starts at 5 seconds. Without a
        body, emptying `document.body` throws before anything is shown or
        started, and the throw ends the caller as well. */
    method ShowBlockedMessage(contentType: string, redirectUrl: string)
      modifies this`overlay
      ensures hasBody ==> overlay == Some(BlockOverlay(contentType, Countdown.Start(redirectUrl)))
      ensures !hasBody ==> overlay == old(overlay)
    {
      if !hasBody {
        return;
      }
      overlay := Some(BlockOverlay(contentType, Countdown.Start(redirectUrl)));
    }

    /** One firing of the countdown interval: `seconds--`, and at 0 the
        interval is cleared and the page navigates to the redirect address. */
    method OnCountdownTick()
      modifies this`overlay, this`navigations
      ensures old(overlay).None? ==> overlay == old(overlay) && navigations == old(navigations)
      ensures old(overlay).Some? ==>
        var r := Countdown.Tick(old(overlay).value.countdown);
        && overlay == Some(old(overlay).value.(countdown := r.next))
        && navigations == old(navigations) + (if r.navigateTo.Some? then [r.navigateTo.value] else [])
    {
      if overlay.Some? && !overlay.value.countdown.cleared {
        var c := overlay.value.countdown;
        var seconds := c.seconds - 1;
        if seconds <= 0 {
          overlay := Some(overlay.value.(countdown := Countdown.State(seconds, c.redirectUrl, true)));
          navigations := navigations + [c.redirectUrl];
        } else {
          overlay := Some(overlay.value.(countdown := Countdown.State(seconds, c.redirectUrl, false)));
        }
      }
    }

    /** What one run of `initBlocking` at address `href` leaves behind, given
        the state before: an overlay (when the body exists) that leaves the
        tree alone, or a sweep of the whole document followed by one more
        observer when the body exists. */
    ghost predicate BlockingApplied(href: string, removed0: set<NodeId>, overlay0: Option<BlockOverlay>,
                                    observers0: nat, faulty: set<NodeId>)
      requires Valid()
      reads this
    {
      match Decide(hostname, href, settings)
      case ShowOverlay(contentType, redirectUrl) =>
        && overlay == (if hasBody then Some(BlockOverlay(contentType, Countdown.Start(redirectUrl))) else overlay0)
        && removed == removed0 && observers == observers0
      case SweepDocument =>
        && overlay == overlay0
        && removed == SweepResult(dom, removed0, hostname, settings, faulty, DocumentRoot)
        && observers == observers0 + (if hasBody then 1 else 0)
    }

    /** `initBlocking`, with `href` the address `location.href` holds when it
        runs: the first overlay whose condition holds is shown and nothing is
        swept; otherwise the document is swept and an observer is
        installed. */
    method InitBlocking(href: string, faulty: set<NodeId>)
      requires Valid()
      modifies this`removed, this`overlay, this`observers
      ensures BlockingApplied(href, old(removed), old(overlay), old(observers), faulty)
    {
      if IsYouTubeHost(hostname) && settings.blockYouTubeShorts && IsYouTubeShortsURL(href) {
        ShowBlockedMessage("YouTube Shorts", YouTubeHome);
        return;
      }
      if IsInstagramHost(hostname) && settings.blockInstagramReels && IsInstagramReelURL(href) {
        ShowBlockedMessage("Instagram Reels", InstagramHome);
        return;
      }
      if IsInstagramHost(hostname) && settings.blockInstagramCompletely {
        ShowBlockedMessage("Instagram", GoogleHome);
        return;
      }
      Sweep(DocumentRoot, faulty);
      if hasBody {
        observers := observers + 1;
      }
    }

    /** The runtime message listener: a `settingsChanged` message overwrites
        the flags it names with their new values and runs `initBlocking`
        again at the address the page shows by then (`href`); any other
        message is ignored. */
    method OnMessage(request: Request, href: string, faulty: set<NodeId>)
      requires Valid()
      modifies this`settings, this`removed, this`overlay, this`observers
      ensures request.SettingsChanged? ==>
        && settings == ApplyChanges(old(settings), request.changes)
        && BlockingApplied(href, old(removed), old(overlay), old(observers), faulty)
      ensures !request.SettingsChanged? ==>
        settings == old(settings) && removed == old(removed) && overlay == old(overlay) && observers == old(observers)
    {
      if request.SettingsChanged? {
        var changes := request.changes;
        if Key(YouTubeShorts) in changes {
          settings := settings.(blockYouTubeShorts := Truthy(changes[Key(YouTubeShorts)].newValue));
        }
        if Key(InstagramReels) in changes {
          settings := settings.(blockInstagramReels := Truthy(changes[Key(InstagramReels)].newValue));
        }
        if Key(InstagramCompletely) in changes {
          settings := settings.(blockInstagramCompletely := Truthy(changes[Key(InstagramCompletely)].newValue));
        }
        InitBlocking(href, faulty);
      }
    }

    /** `init`: the reply to `getSettings`, when there is one, replaces the
        settings, then `initBlocking` runs at address `href`. */
    method Init(response: Option<Settings>, href: string, faulty: set<NodeId>)
      requires Valid()
      modifies this`settings, this`removed, this`overlay, this`observers
      ensures settings == LoadSettings(old(settings), response)
      ensures BlockingApplied(href, old(removed), old(overlay), old(observers), faulty)
    {
      if response.Some? {
        settings := response.value;
      }
      InitBlocking(href, faulty);
    }

    /** The mutation observer's callback: every added node that can be
        queried is swept as a root, in the order the records list them. */
    method OnNodesAdded(added: seq<NodeId>, faulty: set<NodeId>)
      requires Valid() && InTree(dom, added)
      modifies this`removed
      ensures removed == SweepRoots(dom, old(removed), hostname, settings, faulty, added)
    {
      ghost var before := removed;
      for i := 0 to |added|
        invariant removed == SweepRoots(dom, before, hostname, settings, faulty, added[..i])
      {
        assert added[..i + 1][..i] == added[..i];
        var node := added[i];
        if HasQueryApi(dom.nodes[node]) {
          Sweep(node, faulty);
        }
      }
      assert added[..|added|] == added;
    }
  }

  /** The removed set after sweeping each added root that offers
      `querySelector`, one after the other. */
  function SweepRoots(t: Tree, removed: set<NodeId>, hostname: string, s: Settings,
                      faulty: set<NodeId>, roots: seq<NodeId>): (r: set<NodeId>)
    requires t.Valid() && InTree(t, roots)
    ensures removed <= r
    ensures forall c :: c in r && c !in removed ==>
      && c < |t.nodes| && c !in faulty
      && ((IsYouTubeHost(hostname) && MatchesAny(t.nodes[c], YouTubeCandidates))
          || (IsInstagramHost(hostname) && MatchesAny(t.nodes[c], InstagramCandidates)))
    ensures forall c :: c in r && c !in removed ==>
      exists i :: 0 <= i < |roots| && HasQueryApi(t.nodes[roots[i]]) && IsDescendant(t, removed, c, roots[i])
    decreases |roots|
  {
    if roots == [] then removed
    else
      var before := SweepRoots(t, removed, hostname, s, faulty, roots[..|roots| - 1]);
      var root := roots[|roots| - 1];
      if HasQueryApi(t.nodes[root]) then
        var out := SweepResult(t, before, hostname, s, faulty, root);
        SweepRemovesOnlyCandidates(t, before, hostname, s, faulty, root);
        LastRootStep(t, removed, before, out, roots);
        out
      else before
  }

  /** The step of `SweepRoots` for its last root: what the sweep of that root
      adds to `before` lies below it, and what the earlier roots removed lies
      below one of them. */
  lemma LastRootStep(t: Tree, removed: set<NodeId>, before: set<NodeId>, out: set<NodeId>, roots: seq<NodeId>)
    requires t.Valid() && InTree(t, roots) && |roots| > 0 && removed <= before
    requires HasQueryApi(t.nodes[roots[|roots| - 1]])
    requires forall c :: c in before && c !in removed ==> c < |t.nodes|
    requires forall c :: c in before && c !in removed ==>
      exists i :: 0 <= i < |roots| - 1 && HasQueryApi(t.nodes[roots[i]]) && IsDescendant(t, removed, c, roots[i])
    requires forall c :: c in out && c !in before ==> c < |t.nodes| && IsDescendant(t, before, c, roots[|roots| - 1])
    requires before <= out
    ensures forall c :: c in out && c !in removed ==>
      exists i :: 0 <= i < |roots| && HasQueryApi(t.nodes[roots[i]]) && IsDescendant(t, removed, c, roots[i])
  {
    forall c | c in out && c !in removed
      ensures exists i :: 0 <= i < |roots| && HasQueryApi(t.nodes[roots[i]]) && IsDescendant(t, removed, c, roots[i])
    {
      if c in before {
        var i :| 0 <= i < |roots| - 1 && HasQueryApi(t.nodes[roots[i]]) && IsDescendant(t, removed, c, roots[i]);
      } else {
        DescendantAntitone(t, removed, before, c, roots[|roots| - 1]);
      }
    }
  }
}
