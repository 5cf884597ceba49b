/** The content script's process-local copy of the three blocking flags
    (content_script.js:5-9) and the way a `settingsChanged` message updates it
    (content_script.js:24-37). */
module SettingsCache {
  import opened Wrappers

  /** The three flags, one field per stored key. */
  datatype Settings = Settings(
    blockYouTubeShorts: bool,
    blockInstagramReels: bool,
    blockInstagramCompletely: bool)

  /** Names a flag, so that statements about "every flag" can quantify. */
  datatype Flag = YouTubeShorts | InstagramReels | InstagramCompletely

  /** The storage key under which a flag is kept. */
  function Key(f: Flag): string {
    match f
    case YouTubeShorts => "blockYouTubeShorts"
    case InstagramReels => "blockInstagramReels"
    case InstagramCompletely => "blockInstagramCompletely"
  }

  /** The field of `s` that holds flag `f`. */
  function Get(s: Settings, f: Flag): bool {
    match f
    case YouTubeShorts => s.blockYouTubeShorts
    case InstagramReels => s.blockInstagramReels
    case InstagramCompletely => s.blockInstagramCompletely
  }

  /** The value the content script starts with before any reply from the
      background context arrives. */
  const InitialSettings := Settings(true, true, false)

  /** One entry of a storage change notification: `{oldValue, newValue}`,
      either of which is absent when the key had or has no value. */
  datatype Change = Change(oldValue: Option<bool>, newValue: Option<bool>)

  /** How the content script reads an assigned value that may be `undefined`:
      every later use of the flag is a truthiness test, so an absent value
      acts as `false`. */
  function Truthy(v: Option<bool>): (b: bool)
    ensures b <==> v == Some(true)
  {
    v.Some? && v.value
  }

  /** The cache after a `settingsChanged` message: a flag whose key appears in
      `changes` takes the new value, every other flag keeps its old value. */
  function ApplyChanges(s: Settings, changes: map<string, Change>): (r: Settings)
    ensures forall f: Flag :: Key(f) in changes ==> Get(r, f) == Truthy(changes[Key(f)].newValue)
    ensures forall f: Flag :: Key(f) !in changes ==> Get(r, f) == Get(s, f)
  {
    Settings(
      if Key(YouTubeShorts) in changes then Truthy(changes[Key(YouTubeShorts)].newValue) else s.blockYouTubeShorts,
      if Key(InstagramReels) in changes then Truthy(changes[Key(InstagramReels)].newValue) else s.blockInstagramReels,
      if Key(InstagramCompletely) in changes then Truthy(changes[Key(InstagramCompletely)].newValue) else s.blockInstagramCompletely)
  }

  /** A notification that names none of the three keys leaves the cache as it
      was, and applying the same notification twice is the same as once. */
  lemma ApplyChangesIdempotent(s: Settings, changes: map<string, Change>)
    ensures ApplyChanges(ApplyChanges(s, changes), changes) == ApplyChanges(s, changes)
    ensures (forall f: Flag :: Key(f) !in changes) ==> ApplyChanges(s, changes) == s
  {
    var r := ApplyChanges(s, changes);
    assert Get(ApplyChanges(r, changes), YouTubeShorts) == Get(r, YouTubeShorts);
    assert Get(ApplyChanges(r, changes), InstagramReels) == Get(r, InstagramReels);
    assert Get(ApplyChanges(r, changes), InstagramCompletely) == Get(r, InstagramCompletely);
  }

  /** Two settings records that agree on every flag are equal. */
  lemma SettingsExtensional(a: Settings, b: Settings)
    requires forall f: Flag :: Get(a, f) == Get(b, f)
    ensures a == b
  {
    assert Get(a, YouTubeShorts) == Get(b, YouTubeShorts);
    assert Get(a, InstagramReels) == Get(b, InstagramReels);
    assert Get(a, InstagramCompletely) == Get(b, InstagramCompletely);
  }

  /** `loadSettings`: a reply from the background context replaces the whole
      record; without a reply the current record stays. */
  function LoadSettings(current: Settings, response: Option<Settings>): (r: Settings)
    ensures response.Some? ==> r == response.value
    ensures response.None? ==> r == current
  {
    if response.Some? then response.value else current
  }
}
