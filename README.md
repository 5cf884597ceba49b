# Shorts Blocker — a verified model of the filtering engine

This project models the engine of the Shorts Blocker browser extension. The
content script (`content_script.js`) runs in YouTube and Instagram pages. It
keeps a cache of three blocking flags. It decides from markup alone whether a
node is a unit of short-form video, and it sweeps the page's tree to remove
such nodes. A direct Shorts or Reels address gets a block overlay with a
five-second countdown instead of a sweep. The background worker
(`background.js`) owns the stored flags. It answers `getSettings` with
per-flag defaults, writes the install defaults, stores `updateSettings`, and
relays every change of the local storage area to the tabs of the two sites.

Layout, one module per file:

- `text.dfy` (`Text`): `String.prototype.includes` as a recursive predicate, characterised by occurrence indices.
- `settings_cache.dfy` (`SettingsCache`): the flags record, storage keys, and how a change notification updates the cache.
- `urls.dfy` (`Urls`): the host tests and the direct-address tests.
- `dom.dfy` (`Dom`): an abstract document tree. Nodes are numbered in document order, a pre-order walk: every parent precedes its children, and every subtree is the run of ids right after its root. Removal is a set of detached nodes; a detached node loses its parent link and keeps its own subtree. `querySelector`, `querySelectorAll` and `closest` are defined over this tree for the attribute tests the source uses.
- `classifier.dfy` (`Classifier`): `looksLikeShortVideo`, rule by rule, in the source's order.
- `sweep.dfy` (`Sweeper`): `removeIfMatches` and `sweep` as functions of the removed set, plus the lemmas about what a sweep removes and when a second sweep removes nothing.
- `countdown.dfy` (`Countdown`): the overlay countdown as a state machine advanced by discrete ticks.
- `messages.dfy` (`Messages`): the request and reply records of the runtime channel.
- `content_script.dfy` (`ContentScript`): the page as a class whose fields the handlers update in place. It covers the sweep loops, `initBlocking`, the `settingsChanged` listener, `init`, the observer callback and the countdown tick.
- `background.dfy` (`Background`): the worker as a class holding the store and the messages it has sent, plus the `getSettings` reply and the relay filter.
- `settings_sync.dfy` (`SettingsSync`): the change notification the store issues for a write. It proves that a page's cache tracks the store through any series of writes.

Inputs the code reads from the browser are parameters:

- the tree;
- the host name, and the address each time `initBlocking` reads it;
- whether `document.body` exists;
- the `getSettings` reply, or its absence;
- the tab list;
- the storage namespace;
- `faulty`, the set of candidates whose test or removal throws.

Every assignment to `window.location.href` is recorded in `navigations`, and every `chrome.tabs.sendMessage` in `outbox`.

**Behaviour one might expect but the code does not have.** The model follows the code in each case:

- **A second sweep can remove more.** One would expect a sweep to be idempotent: sweeping the same tree again with the same settings should find nothing left to remove. The code has that property except on Instagram with reels blocking on.
  - `Sweeper.SweepIdempotent` proves it for every other setting.
  - `Sweeper.InstagramSecondSweepRemovesMore` gives a five-node tree where the second sweep removes a node the first one kept. The navigation-entry rule answers early for an article that still holds the Reels link. Once that link's menu item is gone, the article rule is reached.
- **The overlay replaces the page.** It empties `document.body` rather than laying a panel over the page. Without a body, that first step throws, and no overlay or countdown appears.
- **No other mechanisms.** The code has no media silencing before removal, no batching or debouncing of inserted nodes, no watcher for in-page navigation, no way to cancel the overlay, and no history-replacing redirect. None of these is modelled.

## Model

| member | source | states |
|---|---|---|
| Text.IncludesIffOccurs | content_script.js:47-53 | `includes` holds exactly when the needle occurs at some index of the string |
| Text.Includes | content_script.js:47-53 | `includes` finds a needle the string starts with, and never finds a needle longer than the string |
| SettingsCache.Truthy | content_script.js:26-33 | a flag assigned an absent `newValue` reads as off; only a stored `true` reads as on |
| SettingsCache.ApplyChanges | content_script.js:24-34 | a flag whose key is in `changes` takes its new value, every other flag keeps its old value |
| SettingsCache.ApplyChangesIdempotent | content_script.js:24-34 | applying a notification twice equals applying it once; a notification naming no flag changes nothing |
| SettingsCache.LoadSettings | content_script.js:12-21 | a reply replaces the whole record, no reply keeps the current one; what this means for the page is in `SettingsSync.LoadedPageTracksWrites` and `SettingsSync.UnansweredPageAgreement` |
| Urls.IsYouTubeHost | content_script.js:62 | the host test holds iff "youtube.com" occurs in the host name at some index |
| Urls.IsInstagramHost | content_script.js:86 | the host test holds iff "instagram.com" occurs in the host name at some index |
| Urls.IsYouTubeShortsURL | content_script.js:47-49 | an address is a Shorts address iff "/shorts/" or "shorts?" occurs in it at some index; defined on every string |
| Urls.IsInstagramReelURL | content_script.js:51-53 | an address is a reel address iff "/reel/" or "/reels/" occurs in it at some index; defined on every string |
| Urls.URLTestsInContext | content_script.js:47-53 | both address tests stay true when text is added before or after the address |
| Urls.URLExamples | content_script.js:47-53 | concrete addresses and hosts classified as the tests prescribe |
| Urls.InstagramHostExample | content_script.js:86 | `www.instagram.com` is an Instagram host and not a YouTube host |
| Dom.ParentOf | content_script.js:43 | a removed node has no parent, an attached node keeps the parent it was built with, and a parent always precedes its child |
| Dom.DescendantFollowsAncestor | content_script.js:130 | a descendant comes after its ancestor in document order |
| Dom.DescendantAntitone | content_script.js:43 | removing more nodes never makes a node a descendant it was not before |
| Dom.SubtreeIsContiguous | content_script.js:130-138 | the numbering is document order: every node numbered between a node and one of its descendants lies in the same subtree |
| Dom.QuerySelectorAntitone | content_script.js:62-111 | a `querySelector` match that survives more removals was a match before them |
| Dom.SelectFrom | content_script.js:130-138 | lists exactly the matching descendants from a given index on, strictly increasing |
| Dom.Select | content_script.js:130-138 | `querySelectorAll` lists exactly the root's matching descendants, in document order, without duplicates, never the root itself |
| Dom.Closest | content_script.js:99 | the result matches and is the node or one of its ancestors, with no matching node between them; it is the node itself iff the node matches; no result means nothing from the node upward matches |
| Classifier.NavItem | content_script.js:99 | the result is the node or an ancestor and is a menu item or a nav div; it is the node itself iff the node is a menu item, or nothing from the node upward is a menu item and the node is a nav div |
| Classifier.YouTubeShortsSignal | content_script.js:62-82 | only the five renderer elements can be signals, and each needs the `is-shorts` mark or a Shorts link below it |
| Classifier.InstagramVerdict | content_script.js:86-112 | a main area under complete blocking is always accepted, whatever lies below it (the main-area rule comes before the Reels nav rule); a node is accepted only as a main area under complete blocking or with reels blocking on; apart from a main area, only with a reel link, the Reels nav link or a reel test id below it; without the Reels nav link below it, only as an `ARTICLE` holding a reel link or with a reel test id below it |
| Classifier.LooksLikeShortVideo | content_script.js:56-116 | an absent element is never accepted, nor any node unless the page is on one of the two sites with one of that site's flags on |
| Classifier.YouTubeRules | content_script.js:62-83 | on a host that names YouTube and not Instagram, a node is blocked iff the Shorts flag is on and one of the guide-entry, shelf or renderer rules holds |
| Classifier.InstagramWithoutReelsFlag | content_script.js:86-112 | with reels blocking off only the main area can be blocked, and only under complete blocking |
| Classifier.NavEntryDecidesAlone | content_script.js:96-101 | on a host that names Instagram and not YouTube, with reels blocking on, a node holding the Reels nav link that is not a main area under complete blocking is blocked iff it is its own nav item; later rules are not consulted |
| Classifier.InstagramRules | content_script.js:86-111 | on a host that names Instagram and not YouTube, with reels blocking on, a node without the Reels nav link below it is blocked iff it is a main area under complete blocking, an `ARTICLE` holding a reel link, or holds a node whose test id contains `reel` |
| Classifier.ReelsMenuItemBlocked | content_script.js:96-101 | a menu item that holds the Reels nav link is blocked whenever reels blocking is on |
| Classifier.VerdictAntitone | content_script.js:56-116 | outside Instagram reels blocking, a node blocked after more removals was already blocked before them |
| Sweeper.RemoveIfMatches | content_script.js:41-45 | the candidate is removed iff it does not throw and the predicate accepts it; no other node changes |
| Sweeper.SweepOver | content_script.js:131-141 | the loop only adds to the removed set, and only candidates of its list that do not throw |
| Sweeper.SweepOverAppend | content_script.js:131-133 | sweeping a list in two parts is sweeping the first part, then the second in the tree the first left |
| Sweeper.SweepOverExact | content_script.js:129-142 | candidate k ends up removed iff it was already removed, or it does not throw and the predicate held in the tree the first k candidates left |
| Sweeper.SweepOverSurvivors | content_script.js:129-142 | outside Instagram reels blocking, every surviving candidate is harmless in the final tree |
| Sweeper.SweepOverStable | content_script.js:129-142 | a loop over harmless or throwing candidates removes nothing |
| Sweeper.SweepSkipped | content_script.js:120-126 | a sweep that goes ahead has a queryable root; a queryable root is skipped only on YouTube with Shorts blocking off, or on Instagram with both of its flags off |
| Sweeper.SweepResult | content_script.js:119-143 | a sweep only adds to the removed set, never the root and never a candidate that throws |
| Sweeper.SkippedSweepRemovesNothing | content_script.js:120-126 | a root without `querySelectorAll`, or a site whose flags are off, is swept without effect |
| Sweeper.SweepRemovesOnlyCandidates | content_script.js:128-142 | a sweep removes only non-throwing descendants of the root that carry one of the site's candidate tags, never the root |
| Sweeper.LaterCandidates | content_script.js:130-138 | a candidate listed after more removals was listed before them and is still attached |
| Sweeper.SweepIdempotent | content_script.js:119-143 | outside Instagram reels blocking, a second sweep with the same settings removes nothing |
| Sweeper.InstagramSecondSweepRemovesMore | content_script.js:96-143 | with reels blocking on and any other flags, on any Instagram host that does not also name YouTube, a tree exists whose second sweep removes a node the first kept |
| Countdown.Start | content_script.js:176 | the countdown starts at 5 seconds, running, with the given redirect address |
| Countdown.Tick | content_script.js:178-186 | a running countdown loses one second per tick and navigates to its address, then clears, exactly on the tick reaching 0; a cleared one never changes |
| Countdown.ClearedIsFinal | content_script.js:182-183 | after clearing, no tick changes the state or navigates |
| Countdown.RunningCountdown | content_script.js:176-186 | from k seconds the countdown navigates exactly once, to its address, on tick k, and shows k - n after n ticks until then |
| Countdown.CountdownFromStart | content_script.js:176-186 | from the start, no navigation in the first four ticks, one on the fifth, none after |
| ContentScript.Decide | content_script.js:190-212 | an overlay is chosen only on a site with its flag on, for a Shorts or reel address or under complete blocking, and sends to one of the three home pages |
| ContentScript.DecisionOrder | content_script.js:190-212 | the Shorts overlay, the Reels overlay and the complete-block overlay are chosen in that priority; the document is swept iff none applies |
| ContentScript.CompleteBlockingCoversEveryPage | content_script.js:200-209 | under complete blocking every Instagram page gets an overlay |
| ContentScript.Page.constructor | content_script.js:5-9 | the page starts with the declared default flags, nothing removed, no overlay |
| ContentScript.Page.RemoveIfMatches | content_script.js:41-45 | the removed set becomes what `Sweeper.RemoveIfMatches` prescribes |
| ContentScript.Page.Sweep | content_script.js:119-143 | the two loops leave the removed set as `Sweeper.SweepResult` prescribes |
| ContentScript.Page.RemoveEach | content_script.js:131-141 | the loop over one candidate list leaves the removed set as `Sweeper.SweepOver` prescribes |
| ContentScript.Page.ShowBlockedMessage | content_script.js:146-178 | with a body, the overlay for the content type is shown with a fresh countdown to the redirect address; without one nothing changes |
| ContentScript.Page.OnCountdownTick | content_script.js:178-186 | the overlay's countdown advances by `Countdown.Tick` and its navigation, if any, is appended |
| ContentScript.Page.InitBlocking | content_script.js:190-231 | decided on the current address: either the chosen overlay is shown (when the body exists) and nothing is removed, or the document is swept and one observer is added when the body exists |
| ContentScript.Page.OnMessage | content_script.js:24-38 | `settingsChanged` applies the changes then re-runs `initBlocking`; any other message changes nothing |
| ContentScript.Page.Init | content_script.js:234-242 | the settings become the reply when there is one, then `initBlocking` runs |
| ContentScript.Page.OnNodesAdded | content_script.js:215-225 | every added node that can be queried is swept as a root, in order |
| ContentScript.SweepRoots | content_script.js:216-222 | sweeping added roots only adds to the removed set, and each newly removed node is a non-throwing node with one of the site's candidate tags, lying below one of the queryable roots |
| Background.GetSettingsReply | background.js:18-23 | each flag is its stored value when stored, a stored `false` included, else true, true, false |
| Background.DefaultsAgree | background.js:5-23 | install writes exactly the three keys, each with its `??` fallback, which are also the content script's initial flags |
| Background.DefaultReplies | background.js:5-23 | after install, and on a store holding none of the keys, the reply is the default flags |
| Background.ReplyAfterUpdate | background.js:18-33 | after an update a flag reads as written if it was written, as before otherwise |
| Background.Fallback | background.js:20-22 | each `??` fallback is the flag's value in the content script's initial settings |
| Background.ReceivesRelay | background.js:43 | a tab qualifies iff it has an address on which one of the two host tests holds |
| Background.Relayed | background.js:41-51 | exactly as many messages as qualifying tabs, each carrying `changes` unmodified |
| Background.RelayedExactly | background.js:42-49 | a tab id is sent the relay iff a listed tab with that id has an address containing "youtube.com" or "instagram.com" |
| Background.OtherSitesIgnored | background.js:43 | tabs of neither site are sent nothing |
| Background.Worker.OnInstalled | background.js:5-12 | the three defaults are written over the store |
| Background.Worker.OnMessage | background.js:15-35 | `getSettings` is answered from the store with fallbacks and writes nothing; `updateSettings` writes the given settings and answers success; other actions get no answer |
| Background.Worker.OnStorageChanged | background.js:38-54 | for the `local` area the relay of every qualifying tab is sent in tab order; other areas send nothing |
| SettingsSync.Notification | background.js:38 | the notification names exactly the written keys whose value changed, with their new values |
| SettingsSync.CacheTracksStore | content_script.js:24-34 | a cache equal to the `getSettings` reply stays equal to it after a write and its notification |
| SettingsSync.CacheTracksWrites | content_script.js:12-37 | a page that loaded its settings and received every notification holds what `getSettings` would now answer |
| SettingsSync.LoadedPageTracksWrites | content_script.js:12-21 | a page that received the `getSettings` reply holds what `getSettings` would answer after any later series of writes |
| SettingsSync.UnansweredPageAgreement | content_script.js:12-21 | a page that got no reply agrees with the store iff every stored flag holds its fallback value |
| SettingsSync.UnansweredPageKeepsBlocking | content_script.js:12-21 | with Shorts blocking stored as off, a page that got no reply still blocks Shorts |
| SettingsSync.DeletedKeyDiverges | content_script.js:26-27 | if a default-on key is deleted instead of written, the page's cache turns the flag off while `getSettings` would answer on |

## Left out

- The `chrome.runtime`, `chrome.storage` and `chrome.tabs` calls and their promise wrappers: replies, stored values and the tab list are parameters, and storage is a map.
- The timing of `DOMContentLoaded` and of mutation delivery: `Init` runs `initBlocking` at once, and a mutation callback is a call to `OnNodesAdded`.
- ContentScript.Page.OnNodesAdded: the page's tree is fixed when the page is created, so nodes the page inserts later are not represented. The callback can only sweep roots that already exist in that tree.
- Each `initBlocking` installs a further observer without a guard. Only their count is kept, and the model does not deliver mutations to them itself: with k observers installed, one batch of added nodes corresponds to k calls of `OnNodesAdded`. Such repeated sweeps are not harmless in general: on Instagram with reels blocking on, a second sweep can remove more (`Sweeper.InstagramSecondSweepRemovesMore`).
- The CSS selector engine: selectors are the attribute tests the source uses (equals, contains, present), evaluated on the abstract tree.
- Overlay rendering: the inline styles, the text, and the countdown label. Emptying the body is also left out, so nodes stay in the tree after an overlay; only its failure without a body is modelled.
- A second overlay leaves the first countdown's interval running. The model keeps only the latest countdown.
- Real time: `setInterval` becomes discrete calls to `OnCountdownTick`.
- Stored values that are not booleans: the store holds booleans only.
- The asynchronous `getSettings` reply is modelled as taken from the store at the moment of the request.
- A failed `sendMessage` is recorded in `outbox` like any other send. The failure has no effect on the worker or on the loop.
- popup.js is not part of this model.
