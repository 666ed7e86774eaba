/**
 * The site-wide language setting: chosen from the URL's `/ru/` or `/en/`
 * prefix when there is one, otherwise read back from browser storage, and
 * written to storage whenever the user picks a language.
 */
module LanguageContext {
  import opened Wrappers
  import opened Strings

  /**
   * A language code as it is held at run time. The declared type admits only
   * "en" and "ru", but a value read back from storage is never checked, so
   * any string can end up here.
   */
  type Language = string

  const En: Language := "en"
  const Ru: Language := "ru"

  /** The storage key both initialisation and `setLanguage` use. */
  const StorageKey := "workyy-language"

  /** Browser key-value storage, abstracted as a map. */
  type Storage = map<string, string>

  datatype Context = Context(language: Language, storage: Storage)

  predicate Supported(l: Language) {
    l == En || l == Ru
  }

  /** The language a `/ru/` or `/en/` path prefix selects, if any. */
  function PathLanguage(path: string): (r: Option<Language>)
    ensures r == Some(Ru) <==> StartsWith(path, "/ru/")
    ensures r == Some(En) <==> StartsWith(path, "/en/")
    ensures r.Some? ==> Supported(r.value)
  {
    if StartsWith(path, "/ru/") then Some(Ru)
    else if StartsWith(path, "/en/") then
      assert path[1] == 'e';
      Some(En)
    else None
  }

  /** The stored language, where a missing entry and the empty string both count as absent. */
  function StoredLanguage(storage: Storage): (r: Option<Language>)
    ensures r.Some? ==> StorageKey in storage && r.value == storage[StorageKey] && r.value != ""
    ensures r.None? ==> StorageKey !in storage || storage[StorageKey] == ""
  {
    if StorageKey in storage && storage[StorageKey] != "" then Some(storage[StorageKey]) else None
  }

  /** The language the provider starts with. */
  function InitialLanguage(path: string, storage: Storage): (l: Language)
    ensures l != ""
    ensures PathLanguage(path).Some? ==> l == PathLanguage(path).value
    ensures PathLanguage(path).None? ==> l == StoredLanguage(storage).GetOr(En)
  {
    match PathLanguage(path)
    case Some(pl) => pl
    case None => StoredLanguage(storage).GetOr(En)
  }

  /** The effect that follows the location: a prefixed path sets the language, any other path keeps it. */
  function OnLocationChange(ctx: Context, path: string): (r: Context)
    ensures r.storage == ctx.storage
    ensures PathLanguage(path).None? ==> r == ctx
    ensures PathLanguage(path).Some? ==> r.language == InitialLanguage(path, ctx.storage)
  {
    match PathLanguage(path)
    case Some(pl) => ctx.(language := pl)
    case None => ctx
  }

  /** `setLanguage`: the new language becomes current and is written to storage. */
  function SetLanguage(ctx: Context, lang: Language): (r: Context)
    ensures r.language == lang
    ensures r.storage.Keys == ctx.storage.Keys + {StorageKey}
    ensures r.storage[StorageKey] == lang
    ensures forall k :: k in ctx.storage && k != StorageKey ==> r.storage[k] == ctx.storage[k]
  {
    Context(lang, ctx.storage[StorageKey := lang])
  }

  /** On a prefixed path the stored value plays no part in the initial language. */
  lemma PrefixedPathIgnoresStorage(path: string, s1: Storage, s2: Storage)
    requires PathLanguage(path).Some?
    ensures InitialLanguage(path, s1) == InitialLanguage(path, s2)
    ensures Supported(InitialLanguage(path, s1))
  {
  }

  /** What `setLanguage` writes is what the next start on an unprefixed path reads. */
  lemma SetLanguageRoundTrip(ctx: Context, lang: Language, path: string)
    requires lang != ""
    requires PathLanguage(path).None?
    ensures InitialLanguage(path, SetLanguage(ctx, lang).storage) == lang
  {
  }

  /** The stored value is taken as it is, even when it names no supported language. */
  lemma StoredValueUnvalidated()
    ensures InitialLanguage("/pricing", map[StorageKey := "fr"]) == "fr"
    ensures InitialLanguage("/pricing", map[StorageKey := ""]) == En
    ensures InitialLanguage("/ru/pricing", map[StorageKey := "en"]) == Ru
  {
    assert !StartsWith("/pricing", "/ru/") by { assert "/pricing"[1] == 'p'; }
    assert !StartsWith("/pricing", "/en/") by { assert "/pricing"[1] == 'p'; }
  }

  /** Following the same location twice changes nothing the second time. */
  lemma OnLocationChangeIdempotent(ctx: Context, path: string)
    ensures OnLocationChange(OnLocationChange(ctx, path), path) == OnLocationChange(ctx, path)
  {
  }
}
