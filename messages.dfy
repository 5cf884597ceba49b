/** The messages exchanged between the background context and the page
    contexts over the extension's runtime channel. */
module Messages {
  import opened SettingsCache

  /** A request, by its `action` field. `Unknown` stands for every other
      action, which both listeners ignore. */
  datatype Request =
    | GetSettings                                        // {action: 'getSettings'}
    | UpdateSettings(settings: map<string, bool>)        // {action: 'updateSettings', settings}
    | SettingsChanged(changes: map<string, Change>)      // {action: 'settingsChanged', changes}
    | Unknown

  /** A reply sent back through `sendResponse`. */
  datatype Reply =
    | SettingsReply(settings: Settings)                  // the three flags
    | SuccessReply(success: bool)                        // {success: true}
}
