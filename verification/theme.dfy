/**
 * The colour themes: their catalogue, grouped into four families, the theme
 * restored from storage at start-up, and the light/dark toggle.
 */
module Theme {
  import opened Wrappers

  /** A theme id, such as `aurora-dark`. */
  type ThemeId = string

  /** One of the four theme families. */
  datatype ThemeGroup = ThemeGroup(id: string, caption: string)

  /** A catalogue entry; colour tokens, descriptions and previews are styling only and left out. */
  datatype ThemeEntry = ThemeEntry(id: ThemeId, name: string, group: string)

  const DefaultTheme: ThemeId := "aurora-dark"
  const LightTheme: ThemeId := "aurora-light"
  const StorageKey := "workyy-theme"

  const ThemeGroups: seq<ThemeGroup> := [
    ThemeGroup("aurora", "Aurora"),
    ThemeGroup("pastel", "Pastel Studio"),
    ThemeGroup("dev", "Dev Grid"),
    ThemeGroup("lined", "Lined Journals")
  ]

  /** The catalogue as key/entry pairs, in declaration order. */
  const ThemeConfig: seq<(ThemeId, ThemeEntry)> := [
    ("aurora-dark", ThemeEntry("aurora-dark", "Aurora Dark", "aurora")),
    ("aurora-light", ThemeEntry("aurora-light", "Aurora Light", "aurora")),
    ("pastel-sunset", ThemeEntry("pastel-sunset", "Pastel Sunset", "pastel")),
    ("pastel-peach", ThemeEntry("pastel-peach", "Pastel Peach", "pastel")),
    ("pastel-sand", ThemeEntry("pastel-sand", "Pastel Sand", "pastel")),
    ("dev-dark", ThemeEntry("dev-dark", "Dev Dark Grid", "dev")),
    ("dev-light", ThemeEntry("dev-light", "Dev Light Grid", "dev")),
    ("lined-warm", ThemeEntry("lined-warm", "Lined Warm", "lined"))
  ]

  /** The ids of a list of entries, in order. */
  function EntryIds(config: seq<(ThemeId, ThemeEntry)>): (ids: seq<ThemeId>)
    ensures |ids| == |config|
    ensures forall k :: 0 <= k < |config| ==> ids[k] == config[k].1.id
  {
    if config == [] then [] else [config[0].1.id] + EntryIds(config[1..])
  }

  /**
   * `AVAILABLE_THEMES`: the catalogue's ids in declaration order, spelled
   * out so that membership tests need not unfold the catalogue.
   */
  function AvailableThemes(): (ids: seq<ThemeId>)
    ensures |ids| == |ThemeConfig|
    ensures forall k :: 0 <= k < |ThemeConfig| ==> ids[k] == ThemeConfig[k].1.id
  {
    ["aurora-dark", "aurora-light", "pastel-sunset", "pastel-peach", "pastel-sand", "dev-dark", "dev-light", "lined-warm"]
  }

  /** The spelled-out list is exactly the ids read off the catalogue. */
  lemma AvailableThemesAreEntryIds()
    ensures AvailableThemes() == EntryIds(ThemeConfig)
  {
    var ids := EntryIds(ThemeConfig);
    assert |ids| == |AvailableThemes()|;
    assert forall k :: 0 <= k < |ids| ==> ids[k] == AvailableThemes()[k];
  }

  predicate IsGroupId(g: string) {
    exists k :: 0 <= k < |ThemeGroups| && ThemeGroups[k].id == g
  }

  /** Every entry is filed under its own id and belongs to one of the four families. */
  predicate ConfigWellFormed(config: seq<(ThemeId, ThemeEntry)>) {
    forall k :: 0 <= k < |config| ==> config[k].0 == config[k].1.id && IsGroupId(config[k].1.group)
  }

  /** Both aurora themes are in the catalogue, at its head. */
  lemma AuroraPairAvailable()
    ensures AvailableThemes()[0] == DefaultTheme && AvailableThemes()[1] == LightTheme
    ensures DefaultTheme in AvailableThemes() && LightTheme in AvailableThemes()
  {
    assert ThemeConfig[0].1.id == DefaultTheme && ThemeConfig[1].1.id == LightTheme;
  }

  /** The legacy values `dark` and `light` are not catalogue ids: every id is longer. */
  lemma LegacyValuesNotThemes()
    ensures "dark" !in AvailableThemes() && "light" !in AvailableThemes()
  {
    forall k | 0 <= k < |ThemeConfig|
      ensures |AvailableThemes()[k]| >= 8
    {
    }
  }

  lemma ThemeConfigWellFormed()
    ensures ConfigWellFormed(ThemeConfig)
    ensures DefaultTheme in AvailableThemes() && LightTheme in AvailableThemes()
  {
    assert ThemeGroups[0].id == "aurora";
    assert ThemeGroups[1].id == "pastel";
    assert ThemeGroups[2].id == "dev";
    assert ThemeGroups[3].id == "lined";
    AuroraPairAvailable();
  }

  /**
   * `getStoredTheme`: the legacy values `dark` and `light` are mapped to the
   * aurora pair, a known id is kept, and anything else, like a missing value
   * or a missing window, gives the default.
   */
  function GetStoredTheme(hasWindow: bool, stored: Option<string>): (t: ThemeId)
    ensures t in AvailableThemes()
    ensures !hasWindow ==> t == DefaultTheme
    ensures hasWindow && stored.Some? && stored.value in AvailableThemes() ==> t == stored.value
    ensures hasWindow && stored == Some("dark") ==> t == DefaultTheme
    ensures hasWindow && stored == Some("light") ==> t == LightTheme
    ensures stored.None? || (stored.value !in AvailableThemes() && stored.value != "dark" && stored.value != "light") ==> t == DefaultTheme
  {
    AuroraPairAvailable();
    LegacyValuesNotThemes();
    if !hasWindow then DefaultTheme
    else if stored == Some("dark") then DefaultTheme
    else if stored == Some("light") then LightTheme
    else if stored.Some? && stored.value != "" && stored.value in AvailableThemes() then stored.value
    else DefaultTheme
  }

  /** `toggleTheme`: from the default to light, from every other theme back to the default. */
  function ToggleTheme(t: ThemeId): (r: ThemeId)
    ensures r in AvailableThemes()
    ensures r != t || t !in AvailableThemes()
    ensures t == DefaultTheme ==> r == LightTheme
    ensures t != DefaultTheme ==> r == DefaultTheme
  {
    AuroraPairAvailable();
    if t == DefaultTheme then LightTheme else DefaultTheme
  }

  /** Toggling twice returns to the start exactly from the aurora pair. */
  lemma ToggleTwice(t: ThemeId)
    ensures ToggleTheme(ToggleTheme(t)) == t <==> t == DefaultTheme || t == LightTheme
  {
  }

  /** The provider's state: the current theme and the browser storage it is mirrored to. */
  datatype ThemeState = ThemeState(theme: ThemeId, storage: map<string, string>)

  /**
   * Start-up: the theme restored from storage, followed by the effect that
   * runs on mount and writes that theme back under the storage key.
   */
  function InitialThemeState(storage: map<string, string>): (s: ThemeState)
    ensures s.theme in AvailableThemes()
    ensures s.theme == GetStoredTheme(true, if StorageKey in storage then Some(storage[StorageKey]) else None)
    ensures StorageKey !in storage ==> s.theme == DefaultTheme
    ensures StorageKey in s.storage && s.storage[StorageKey] == s.theme
    ensures forall k :: k in storage && k != StorageKey ==> k in s.storage && s.storage[k] == storage[k]
    ensures forall k :: k in s.storage ==> k in storage || k == StorageKey
  {
    var stored := if StorageKey in storage then Some(storage[StorageKey]) else None;
    var theme := GetStoredTheme(true, stored);
    ThemeState(theme, storage[StorageKey := theme])
  }

  /** The first start migrates a legacy stored value to the id it stands for. */
  lemma LegacyValueMigrated(storage: map<string, string>)
    requires StorageKey in storage && (storage[StorageKey] == "dark" || storage[StorageKey] == "light")
    ensures InitialThemeState(storage).storage[StorageKey] == (if storage[StorageKey] == "dark" then DefaultTheme else LightTheme)
  {
  }

  /** Starting again from what a start left behind changes nothing: the stored value is already a catalogue id. */
  lemma RestartIsStable(storage: map<string, string>)
    ensures InitialThemeState(InitialThemeState(storage).storage) == InitialThemeState(storage)
  {
    var s := InitialThemeState(storage);
    assert s.storage[StorageKey := s.theme] == s.storage;
  }

  /** `setTheme` followed by the effect that writes the theme back to storage. */
  function SetTheme(s: ThemeState, t: ThemeId): (r: ThemeState)
    ensures r.theme == t && StorageKey in r.storage && r.storage[StorageKey] == t
    ensures forall k :: k in s.storage && k != StorageKey ==> k in r.storage && r.storage[k] == s.storage[k]
  {
    ThemeState(t, s.storage[StorageKey := t])
  }

  /** A catalogue theme that was set is the one the next start restores. */
  lemma SetThemeRoundTrip(s: ThemeState, t: ThemeId)
    requires t in AvailableThemes()
    ensures InitialThemeState(SetTheme(s, t).storage).theme == t
  {
    AuroraPairAvailable();
  }

  /** A theme that is not in the catalogue does not survive a restart. */
  lemma UnknownThemeNotRestored(s: ThemeState, t: ThemeId)
    requires t !in AvailableThemes() && t != "light"
    ensures InitialThemeState(SetTheme(s, t).storage).theme == DefaultTheme
  {
  }
}
