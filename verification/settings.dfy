/** The settings page: defaults, the defaults-plus-saved merge on load, and
    the single-key update written through to local storage. JSON parsing and
    serialisation are parameters (`decode`, `encode`); local storage is a
    plain map from keys to stored strings. */
module Settings {
  import opened Wrappers

  /** A JSON value held by a setting. Numbers are integers. */
  datatype Value = Str(s: string) | Num(n: int) | Bool(b: bool) | Null

  type SettingsData = map<string, Value>

  /** The contents of local storage. */
  type Storage = map<string, string>

  const SETTINGS_KEY := "app-settings"

  /** The page's defaults: nine of the settings, without `copyableCommand`
      or the other editor keys the settings type also declares. */
  function DefaultSettings(): (r: SettingsData)
    ensures r.Keys == {"theme", "fontSize", "showLineNumbers", "wordWrap", "autoSave",
                       "autoSaveInterval", "defaultCategory", "exportFormat", "fontFamily"}
    ensures "copyableCommand" !in r
    ensures forall k :: k in r ==> !r[k].Null?
  {
    map[
      "theme" := Str("system"),
      "fontSize" := Num(14),
      "showLineNumbers" := Bool(true),
      "wordWrap" := Bool(true),
      "autoSave" := Bool(true),
      "autoSaveInterval" := Num(2000),
      "defaultCategory" := Str("general"),
      "exportFormat" := Str("json"),
      "fontFamily" := Str("Monaco, Menlo, \"Ubuntu Mono\", monospace")
    ]
  }

  /** `localStorage.getItem('app-settings')` when it is truthy: present and non-empty. */
  function SavedSettings(storage: Storage): (r: Option<string>)
    ensures r.Some? <==> SETTINGS_KEY in storage && storage[SETTINGS_KEY] != ""
    ensures r.Some? ==> r.value == storage[SETTINGS_KEY]
  {
    if SETTINGS_KEY in storage && storage[SETTINGS_KEY] != "" then Some(storage[SETTINGS_KEY]) else None
  }

  /** Object spread `{ ...base, ...over }`: keys of `over` win. */
  function Merge(base: SettingsData, over: SettingsData): (r: SettingsData)
    ensures r.Keys == base.Keys + over.Keys
    ensures forall k :: k in over ==> r[k] == over[k]
    ensures forall k :: k in base && k !in over ==> r[k] == base[k]
  {
    base + over
  }

  /** Every default key is present. */
  ghost predicate HasAllDefaults(m: SettingsData)
  {
    DefaultSettings().Keys <= m.Keys
  }

  /** Merging a complete settings object over the defaults gives it back. */
  lemma MergeOverComplete(m: SettingsData)
    requires HasAllDefaults(m)
    ensures Merge(DefaultSettings(), m) == m
  {
  }

  /** State of the settings page. */
  datatype SettingsPage = SettingsPage(settings: SettingsData, loading: bool)

  /** The page as first rendered: the defaults, still loading. */
  function InitialPage(): (r: SettingsPage)
    ensures r.settings == DefaultSettings() && r.loading
    ensures HasAllDefaults(r.settings)
  {
    SettingsPage(DefaultSettings(), true)
  }

  /** `loadSettings`: with a saved value that parses, the defaults with every
      saved key laid over them; otherwise the settings are left as they are.
      `decode` returns `None` when `JSON.parse` throws. */
  function LoadSettings(page: SettingsPage, storage: Storage, decode: string -> Option<SettingsData>): (r: SettingsPage)
    ensures !r.loading
    ensures SavedSettings(storage).None? ==> r.settings == page.settings
    ensures SavedSettings(storage).Some? && decode(SavedSettings(storage).value).None? ==>
      r.settings == page.settings
    ensures SavedSettings(storage).Some? && decode(SavedSettings(storage).value).Some? ==>
      var saved := decode(SavedSettings(storage).value).value;
      && r.settings.Keys == DefaultSettings().Keys + saved.Keys
      && (forall k :: k in saved ==> r.settings[k] == saved[k])
      && (forall k :: k in DefaultSettings() && k !in saved ==> r.settings[k] == DefaultSettings()[k])
    ensures HasAllDefaults(page.settings) ==> HasAllDefaults(r.settings)
  {
    match SavedSettings(storage)
    case None => page.(loading := false)
    case Some(raw) =>
      match decode(raw)
      case None => page.(loading := false)
      case Some(saved) => SettingsPage(Merge(DefaultSettings(), saved), false)
  }

  /** The page state and storage after `updateSetting`. */
  datatype Updated = Updated(page: SettingsPage, storage: Storage)

  /** `updateSetting(key, value)`: the in-memory update always happens; the
      new settings are written under 'app-settings' when the write succeeds
      (`writeOk`), and a failed write leaves storage as it was. */
  function UpdateSetting(page: SettingsPage, storage: Storage, key: string, value: Value,
                         encode: SettingsData -> string, writeOk: bool): (r: Updated)
    ensures r.page.settings.Keys == page.settings.Keys + {key}
    ensures r.page.settings[key] == value
    ensures forall k :: k in page.settings && k != key ==> r.page.settings[k] == page.settings[k]
    ensures r.page.loading == page.loading
    ensures writeOk ==> SETTINGS_KEY in r.storage && r.storage[SETTINGS_KEY] == encode(r.page.settings)
    ensures writeOk ==> forall k :: k in storage && k != SETTINGS_KEY ==> k in r.storage && r.storage[k] == storage[k]
    ensures writeOk ==> r.storage.Keys == storage.Keys + {SETTINGS_KEY}
    ensures !writeOk ==> r.storage == storage
    ensures HasAllDefaults(page.settings) ==> HasAllDefaults(r.page.settings)
  {
    var newSettings := page.settings[key := value];
    Updated(page.(settings := newSettings), if writeOk then storage[SETTINGS_KEY := encode(newSettings)] else storage)
  }

  /** Reloading right after a stored update yields the updated settings,
      because the settings always hold every default key. */
  lemma LoadAfterUpdate(page: SettingsPage, storage: Storage, key: string, value: Value,
                        encode: SettingsData -> string, decode: string -> Option<SettingsData>)
    requires HasAllDefaults(page.settings)
    requires encode(page.settings[key := value]) != ""
    requires decode(encode(page.settings[key := value])) == Some(page.settings[key := value])
    ensures var u := UpdateSetting(page, storage, key, value, encode, true);
      LoadSettings(u.page, u.storage, decode).settings == u.page.settings
  {
    var u := UpdateSetting(page, storage, key, value, encode, true);
    MergeOverComplete(u.page.settings);
  }

  /** What can happen to the settings page, with the storage each step sees. */
  datatype SettingsAction =
    | LoadAction(storage: Storage)
    | UpdateAction(updateStorage: Storage, key: string, value: Value, writeOk: bool)

  function ApplySettings(page: SettingsPage, a: SettingsAction,
                         encode: SettingsData -> string, decode: string -> Option<SettingsData>): SettingsPage
  {
    match a
    case LoadAction(storage) => LoadSettings(page, storage, decode)
    case UpdateAction(storage, key, value, writeOk) => UpdateSetting(page, storage, key, value, encode, writeOk).page
  }

  function RunSettings(page: SettingsPage, actions: seq<SettingsAction>,
                       encode: SettingsData -> string, decode: string -> Option<SettingsData>): SettingsPage
    decreases |actions|
  {
    if |actions| == 0 then page
    else RunSettings(ApplySettings(page, actions[0], encode, decode), actions[1..], encode, decode)
  }

  /** Any sequence of loads and updates keeps every default key, so the
      merge on load never loses a setting the page already holds. */
  lemma {:induction false} RunKeepsDefaults(page: SettingsPage, actions: seq<SettingsAction>,
                                            encode: SettingsData -> string, decode: string -> Option<SettingsData>)
    requires HasAllDefaults(page.settings)
    ensures HasAllDefaults(RunSettings(page, actions, encode, decode).settings)
    decreases |actions|
  {
    if |actions| > 0 {
      RunKeepsDefaults(ApplySettings(page, actions[0], encode, decode), actions[1..], encode, decode);
    }
  }

  /** From the page as first rendered, any sequence of loads and updates
      keeps every default key. */
  lemma RunFromInitialKeepsDefaults(actions: seq<SettingsAction>,
                                    encode: SettingsData -> string, decode: string -> Option<SettingsData>)
    ensures HasAllDefaults(RunSettings(InitialPage(), actions, encode, decode).settings)
  {
    RunKeepsDefaults(InitialPage(), actions, encode, decode);
  }

  /** With nothing saved, or a saved value that does not parse, the first
      load leaves the page on its defaults and ends loading. */
  lemma FirstLoadWithoutSaveKeepsDefaults(storage: Storage, decode: string -> Option<SettingsData>)
    requires SavedSettings(storage).None? || decode(SavedSettings(storage).value).None?
    ensures LoadSettings(InitialPage(), storage, decode) == SettingsPage(DefaultSettings(), false)
  {
  }
}
