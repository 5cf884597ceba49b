/** How the content script's cache follows the background context's
    storage: every write is announced as a change notification, relayed to
    the pages and folded into their caches by `ApplyChanges`. */
module SettingsSync {
  import opened Wrappers
  import opened SettingsCache
  import opened Background

  /** The notification the storage area issues for writing `written` over
      `store`: one entry per written key whose value differs, with its old
      value (absent when the key was unset) and its new value. */
  function Notification(store: Store, written: Store): (r: map<string, Change>)
    ensures forall k :: k in r <==> k in written && (k !in store || store[k] != written[k])
    ensures forall k :: k in r ==> r[k].newValue == Some(written[k])
  {
    map k | k in written && (k !in store || store[k] != written[k]) ::
      Change(if k in store then Some(store[k]) else None, Some(written[k]))
  }

  /** A cache that agrees with the `getSettings` reply before a write agrees
      with it after the write, once the write's notification is applied. */
  lemma CacheTracksStore(store: Store, written: Store)
    ensures ApplyChanges(GetSettingsReply(store), Notification(store, written))
         == GetSettingsReply(store + written)
  {
    var before := GetSettingsReply(store);
    var changes := Notification(store, written);
    forall f: Flag
      ensures Get(ApplyChanges(before, changes), f) == Get(GetSettingsReply(store + written), f)
    {
      ReplyAfterUpdate(store, written, f);
    }
    SettingsExtensional(ApplyChanges(before, changes), GetSettingsReply(store + written));
  }

  /** The store after a series of writes, in order. */
  function StoreAfter(store: Store, writes: seq<Store>): Store
    decreases |writes|
  {
    if writes == [] then store
    else StoreAfter(store, writes[..|writes| - 1]) + writes[|writes| - 1]
  }

  /** A page's cache after receiving the notification of each write in turn. */
  function CacheAfter(cache: Settings, store: Store, writes: seq<Store>): Settings
    decreases |writes|
  {
    if writes == [] then cache
    else
      var init := writes[..|writes| - 1];
      ApplyChanges(CacheAfter(cache, store, init), Notification(StoreAfter(store, init), writes[|writes| - 1]))
  }

  /** A page that loaded its settings from the store and then received every
      notification holds what `getSettings` would answer now. */
  lemma {:induction false} CacheTracksWrites(store: Store, writes: seq<Store>)
    ensures CacheAfter(GetSettingsReply(store), store, writes) == GetSettingsReply(StoreAfter(store, writes))
    decreases |writes|
  {
    if writes != [] {
      var init := writes[..|writes| - 1];
      CacheTracksWrites(store, init);
      CacheTracksStore(StoreAfter(store, init), writes[|writes| - 1]);
    }
  }

  /** A page whose `getSettings` call was answered loads the reply, whatever
      it held before, and from then on tracks every write. */
  lemma LoadedPageTracksWrites(current: Settings, store: Store, writes: seq<Store>)
    ensures CacheAfter(LoadSettings(current, Some(GetSettingsReply(store))), store, writes)
         == GetSettingsReply(StoreAfter(store, writes))
  {
    CacheTracksWrites(store, writes);
  }

  /** A page whose `getSettings` call got no answer keeps its initial
      settings, which agree with the store exactly when every stored flag
      holds its fallback value. */
  lemma UnansweredPageAgreement(store: Store)
    ensures LoadSettings(InitialSettings, None) == GetSettingsReply(store) <==>
      forall f: Flag :: Key(f) in store ==> store[Key(f)] == Fallback(f)
  {
    if forall f: Flag :: Key(f) in store ==> store[Key(f)] == Fallback(f) {
      SettingsExtensional(InitialSettings, GetSettingsReply(store));
    } else {
      var f: Flag :| Key(f) in store && store[Key(f)] != Fallback(f);
      assert Get(GetSettingsReply(store), f) != Get(InitialSettings, f);
    }
  }

  /** For instance, with Shorts blocking switched off in storage, a page that
      missed the reply goes on blocking Shorts. */
  lemma UnansweredPageKeepsBlocking()
    ensures LoadSettings(InitialSettings, None).blockYouTubeShorts
    ensures !GetSettingsReply(map["blockYouTubeShorts" := false]).blockYouTubeShorts
  {
  }

  /** When a key is deleted from the store instead of overwritten, the two
      sides part ways: the notification's absent new value switches the
      cached flag off, while `getSettings` would answer with the fallback,
      which is on for the two default-on flags. */
  lemma DeletedKeyDiverges(store: Store, f: Flag)
    requires Key(f) in store && f != InstagramCompletely
    ensures Get(ApplyChanges(GetSettingsReply(store), map[Key(f) := Change(Some(store[Key(f)]), None)]), f) == false
    ensures Get(GetSettingsReply(store - {Key(f)}), f) == true
  {
  }
}
