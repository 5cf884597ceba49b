/** The background service worker (background.js): it owns the extension's
    local storage area, answers the content scripts' requests, writes the
    install defaults and relays storage changes to the pages of the two
    sites. */
module Background {
  import opened Wrappers
  import opened Text
  import opened Urls
  import opened SettingsCache
  import opened Messages

  /** The local storage area, restricted to boolean values. */
  type Store = map<string, bool>

  /** The right-hand side of each `??` in the `getSettings` reply: the value a
      flag takes when nothing is stored under its key. It is the value the
      content script starts with before any reply. */
  function Fallback(f: Flag): (b: bool)
    ensures b == Get(InitialSettings, f)
  {
    match f
    case YouTubeShorts => true
    case InstagramReels => true
    case InstagramCompletely => false
  }

  /** The `getSettings` reply: each flag is its stored value when one is
      stored and its fallback otherwise. */
  function GetSettingsReply(store: Store): (r: Settings)
    ensures forall f: Flag :: Key(f) in store ==> Get(r, f) == store[Key(f)]
    ensures forall f: Flag :: Key(f) !in store ==> Get(r, f) == Fallback(f)
  {
    Settings(
      if Key(YouTubeShorts) in store then store[Key(YouTubeShorts)] else true,
      if Key(InstagramReels) in store then store[Key(InstagramReels)] else true,
      if Key(InstagramCompletely) in store then store[Key(InstagramCompletely)] else false)
  }

  /** The object written by the install listener. */
  const InstallValues: Store :=
    map["blockYouTubeShorts" := true, "blockInstagramReels" := true, "blockInstagramCompletely" := false]

  /** The install defaults, the `??` fallbacks and the content script's
      initial settings are one and the same choice: install writes exactly
      the three keys, each with its fallback, and the content script starts
      out with the fallbacks. */
  lemma DefaultsAgree()
    ensures InstallValues.Keys == {Key(YouTubeShorts), Key(InstagramReels), Key(InstagramCompletely)}
    ensures forall f: Flag :: InstallValues[Key(f)] == Fallback(f)
    ensures forall f: Flag :: Get(InitialSettings, f) == Fallback(f)
  {
  }

  /** Right after install, and on a store holding none of the keys, the
      reply is the content script's initial settings. */
  lemma DefaultReplies(store: Store)
    ensures GetSettingsReply(store + InstallValues) == InitialSettings
    ensures (forall f: Flag :: Key(f) !in store) ==> GetSettingsReply(store) == InitialSettings
  {
    DefaultsAgree();
    SettingsExtensional(GetSettingsReply(store + InstallValues), InitialSettings);
    if forall f: Flag :: Key(f) !in store {
      SettingsExtensional(GetSettingsReply(store), InitialSettings);
    }
  }

  /** After `updateSettings` with `written`, a later `getSettings` reports the
      written value of every flag it wrote and the earlier reply for every
      other flag. */
  lemma ReplyAfterUpdate(store: Store, written: Store, f: Flag)
    ensures Key(f) in written ==> Get(GetSettingsReply(store + written), f) == written[Key(f)]
    ensures Key(f) !in written ==> Get(GetSettingsReply(store + written), f) == Get(GetSettingsReply(store), f)
  {
  }

  /** A tab as `chrome.tabs.query` lists it: its id and, when the extension
      may see it, its address. */
  datatype Tab = Tab(id: int, url: Option<string>)

  /** One `chrome.tabs.sendMessage(tabId, message)`. */
  datatype Delivery = Delivery(tabId: int, message: Request)

  /** A tab is sent the relay when it has an address that mentions one of
      the two sites: the same substring tests the content script applies to
      its host name, here applied to the whole address. */
  function ReceivesRelay(tab: Tab): (b: bool)
    ensures b <==> tab.url.Some? && (IsYouTubeHost(tab.url.value) || IsInstagramHost(tab.url.value))
  {
    tab.url.Some? && (Includes(tab.url.value, "youtube.com") || Includes(tab.url.value, "instagram.com"))
  }

  /** The positions of the tab list that qualify for the relay. */
  function QualifyingTabs(tabs: seq<Tab>): set<int> {
    set i | 0 <= i < |tabs| && ReceivesRelay(tabs[i])
  }

  /** The qualifying positions of a list are those of all but its last tab,
      plus the last position when that tab qualifies. */
  lemma QualifyingTabsSplit(tabs: seq<Tab>)
    requires tabs != []
    ensures var n := |tabs| - 1;
      && QualifyingTabs(tabs) == QualifyingTabs(tabs[..n]) + (if ReceivesRelay(tabs[n]) then {n} else {})
      && n !in QualifyingTabs(tabs[..n])
  {
    var n := |tabs| - 1;
    var init := tabs[..n];
    forall i | i in QualifyingTabs(tabs) && i < n ensures i in QualifyingTabs(init) {
      assert init[i] == tabs[i];
    }
    forall i | i in QualifyingTabs(init) ensures i in QualifyingTabs(tabs) {
      assert init[i] == tabs[i];
    }
  }

  /** The messages the relay sends for `changes`, tab by tab in the order of
      the tab list: exactly one per qualifying tab, each carrying `changes`
      as they came. */
  function Relayed(tabs: seq<Tab>, changes: map<string, Change>): (r: seq<Delivery>)
    ensures |r| == |QualifyingTabs(tabs)|
    ensures forall i :: 0 <= i < |r| ==> r[i].message == SettingsChanged(changes)
    decreases |tabs|
  {
    if tabs == [] then
      assert QualifyingTabs(tabs) == {};
      []
    else
      var init, last := tabs[..|tabs| - 1], tabs[|tabs| - 1];
      QualifyingTabsSplit(tabs);
      Relayed(init, changes)
        + (if ReceivesRelay(last) then [Delivery(last.id, SettingsChanged(changes))] else [])
  }

  /** A tab id is sent the relay exactly when some listed tab with that id
      qualifies; the message always carries `changes` as they came. */
  lemma {:induction false} RelayedExactly(tabs: seq<Tab>, changes: map<string, Change>, d: Delivery)
    ensures d in Relayed(tabs, changes) <==>
      d.message == SettingsChanged(changes)
      && exists i :: 0 <= i < |tabs| && tabs[i].id == d.tabId && ReceivesRelay(tabs[i])
    decreases |tabs|
  {
    if tabs != [] {
      var init := tabs[..|tabs| - 1];
      var last := tabs[|tabs| - 1];
      RelayedExactly(init, changes, d);
      if exists i :: 0 <= i < |init| && init[i].id == d.tabId && ReceivesRelay(init[i]) {
        var i :| 0 <= i < |init| && init[i].id == d.tabId && ReceivesRelay(init[i]);
        assert tabs[i] == init[i];
      }
      if exists i :: 0 <= i < |tabs| && tabs[i].id == d.tabId && ReceivesRelay(tabs[i]) {
        var i :| 0 <= i < |tabs| && tabs[i].id == d.tabId && ReceivesRelay(tabs[i]);
        if i < |init| {
          assert init[i] == tabs[i];
        }
      }
    }
  }

  /** The relay only ever addresses pages of the two sites: a page whose
      address mentions neither is never sent anything. */
  lemma OtherSitesIgnored(tabs: seq<Tab>, changes: map<string, Change>)
    requires forall i :: 0 <= i < |tabs| ==> !ReceivesRelay(tabs[i])
    ensures Relayed(tabs, changes) == []
  {
    assert QualifyingTabs(tabs) == {};
  }

  /** The service worker's state: the storage area it reads and writes, and
      every message it has sent to a tab. */
  class Worker {
    var store: Store
    var outbox: seq<Delivery>

    /** A fresh profile: empty storage, nothing sent. */
    constructor ()
      ensures store == map[] && outbox == []
    {
      store := map[];
      outbox := [];
    }

    /** The install listener writes the three defaults over whatever is
        stored. */
    method OnInstalled()
      modifies this`store
      ensures store == old(store) + InstallValues
    {
      store := store + InstallValues;
    }

    /** The runtime message listener. `getSettings` is answered from storage
        with fallbacks; `updateSettings` writes the given settings and answers
        `{success: true}`; any other action gets no answer. */
    method OnMessage(request: Request) returns (reply: Option<Reply>)
      modifies this`store
      ensures request.GetSettings? ==>
        store == old(store) && reply == Some(SettingsReply(GetSettingsReply(store)))
      ensures request.UpdateSettings? ==>
        store == old(store) + request.settings && reply == Some(SuccessReply(true))
      ensures !request.GetSettings? && !request.UpdateSettings? ==>
        store == old(store) && reply == None
    {
      if request.GetSettings? {
        var result := store;
        reply := Some(SettingsReply(Settings(
          if Key(YouTubeShorts) in result then result[Key(YouTubeShorts)] else true,
          if Key(InstagramReels) in result then result[Key(InstagramReels)] else true,
          if Key(InstagramCompletely) in result then result[Key(InstagramCompletely)] else false)));
        return;
      }
      if request.UpdateSettings? {
        store := store + request.settings;
        reply := Some(SuccessReply(true));
        return;
      }
      reply := None;
    }

    /** The storage change listener: for the `local` area every listed tab
        of the two sites is sent `{action: 'settingsChanged', changes}`; a
        failed send is dropped and the loop goes on. Other areas are
        ignored. */
    method OnStorageChanged(changes: map<string, Change>, namespace: string, tabs: seq<Tab>)
      modifies this`outbox
      ensures namespace == "local" ==> outbox == old(outbox) + Relayed(tabs, changes)
      ensures namespace != "local" ==> outbox == old(outbox)
    {
      if namespace == "local" {
        for i := 0 to |tabs|
          invariant outbox == old(outbox) + Relayed(tabs[..i], changes)
        {
          assert tabs[..i + 1][..i] == tabs[..i];
          var tab := tabs[i];
          if tab.url.Some? && (Includes(tab.url.value, "youtube.com") || Includes(tab.url.value, "instagram.com")) {
            outbox := outbox + [Delivery(tab.id, SettingsChanged(changes))];
          }
        }
        assert tabs[..|tabs|] == tabs;
      }
    }
  }
}
