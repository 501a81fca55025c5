/** The copyable command widget: the command shown is read from the saved
    settings, with a fixed fallback, and re-read on relevant window events. */
module CopyableCommand {
  import opened Wrappers
  import opened Settings

  const FALLBACK_COMMAND := "npm run dev"
  const COMMAND_KEY := "copyableCommand"

  /** JavaScript truthiness of a JSON value. */
  predicate Truthy(v: Value)
  {
    match v
    case Str(s) => s != ""
    case Num(n) => n != 0
    case Bool(b) => b
    case Null => false
  }

  /** `loadCommand`: the saved `copyableCommand` when it is truthy, else the
      fallback; also the fallback when nothing is saved or parsing throws. */
  function LoadCommand(storage: Storage, decode: string -> Option<SettingsData>): (r: Value)
    ensures Truthy(r)
    ensures SavedSettings(storage).None? ==> r == Str(FALLBACK_COMMAND)
    ensures SavedSettings(storage).Some? && decode(SavedSettings(storage).value).None? ==>
      r == Str(FALLBACK_COMMAND)
    ensures SavedSettings(storage).Some? && decode(SavedSettings(storage).value).Some? ==>
      var saved := decode(SavedSettings(storage).value).value;
      && (COMMAND_KEY in saved && Truthy(saved[COMMAND_KEY]) ==> r == saved[COMMAND_KEY])
      && (COMMAND_KEY !in saved || !Truthy(saved[COMMAND_KEY]) ==> r == Str(FALLBACK_COMMAND))
  {
    match SavedSettings(storage)
    case None => Str(FALLBACK_COMMAND)
    case Some(raw) =>
      match decode(raw)
      case None => Str(FALLBACK_COMMAND)
      case Some(saved) =>
        if COMMAND_KEY in saved && Truthy(saved[COMMAND_KEY]) then saved[COMMAND_KEY]
        else Str(FALLBACK_COMMAND)
  }

  /** The widget's state: the command it shows. */
  datatype Widget = Widget(command: Value)

  /** Before the effect first runs the command is the empty string. */
  const InitialWidget := Widget(Str(""))

  /** The component returns `null` while the command is falsy. */
  predicate RendersNothing(w: Widget)
  {
    !Truthy(w.command)
  }

  /** The events the widget listens to, each with storage as it is when
      the handler runs. */
  datatype WindowEvent =
    | StorageEvent(key: Option<string>, storage: Storage)
    | SettingsUpdated(storage: Storage)

  /** The effect body run on mount. */
  function Mount(storage: Storage, decode: string -> Option<SettingsData>): (w: Widget)
    ensures !RendersNothing(w)
    ensures w.command == LoadCommand(storage, decode)
  {
    Widget(LoadCommand(storage, decode))
  }

  /** A storage event reloads only when its key is 'app-settings'; a
      'settings-updated' event always reloads. */
  function HandleEvent(w: Widget, ev: WindowEvent, decode: string -> Option<SettingsData>): (r: Widget)
    ensures ev.StorageEvent? && ev.key != Some(SETTINGS_KEY) ==> r == w
    ensures ev.StorageEvent? && ev.key == Some(SETTINGS_KEY) ==> r.command == LoadCommand(ev.storage, decode)
    ensures ev.SettingsUpdated? ==> r.command == LoadCommand(ev.storage, decode)
  {
    match ev
    case StorageEvent(key, storage) =>
      if key == Some(SETTINGS_KEY) then Widget(LoadCommand(storage, decode)) else w
    case SettingsUpdated(storage) => Widget(LoadCommand(storage, decode))
  }

  function Replay(w: Widget, events: seq<WindowEvent>, decode: string -> Option<SettingsData>): Widget
    decreases |events|
  {
    if |events| == 0 then w else Replay(HandleEvent(w, events[0], decode), events[1..], decode)
  }

  /** Once mounted, the widget renders a command whatever events follow:
      the `null` branch is reachable only before the first load. */
  lemma {:induction false} AlwaysRendersAfterMount(w: Widget, events: seq<WindowEvent>,
                                                   decode: string -> Option<SettingsData>)
    requires !RendersNothing(w)
    ensures !RendersNothing(Replay(w, events, decode))
    decreases |events|
  {
    if |events| > 0 {
      AlwaysRendersAfterMount(HandleEvent(w, events[0], decode), events[1..], decode);
    }
  }

  /** Setting a non-empty command on the settings page and storing it makes
      the widget show that command on its next load. */
  lemma CommandFollowsSettingsUpdate(page: SettingsPage, storage: Storage, c: string,
                                     encode: SettingsData -> string, decode: string -> Option<SettingsData>)
    requires c != ""
    requires encode(page.settings[COMMAND_KEY := Str(c)]) != ""
    requires decode(encode(page.settings[COMMAND_KEY := Str(c)])) == Some(page.settings[COMMAND_KEY := Str(c)])
    ensures LoadCommand(UpdateSetting(page, storage, COMMAND_KEY, Str(c), encode, true).storage, decode) == Str(c)
  {
  }

  /** Before the mount effect runs, the widget renders `null`. */
  lemma InitialRendersNothing()
    ensures RendersNothing(InitialWidget)
  {
  }

  /** With only the page's defaults stored, the widget shows the fallback,
      since the defaults carry no `copyableCommand`. */
  lemma DefaultsShowFallback(storage: Storage, encode: SettingsData -> string,
                             decode: string -> Option<SettingsData>)
    requires SETTINGS_KEY in storage && storage[SETTINGS_KEY] == encode(DefaultSettings())
    requires decode(encode(DefaultSettings())) == Some(DefaultSettings())
    ensures LoadCommand(storage, decode) == Str(FALLBACK_COMMAND)
  {
  }
}
