/**
 * Interface strings (`LanguageManager` and `AppLanguage`, from
 * Buffer/Managers/LanguageManager.swift): two fixed translation tables and
 * a lookup that falls back to English and then to the bracketed key. The
 * stored language preference is the `lang` parameter.
 */
module Localization {

  import opened Wrappers

  /** `AppLanguage`. */
  datatype AppLanguage = English | Polish {

    /** The `String` raw value; `id` is the same string. */
    function RawValue(): string {
      match this
      case English => "en"
      case Polish => "pl"
    }

    /** `Identifiable.id`. */
    function Id(): (r: string)
      ensures r == RawValue()
    {
      RawValue()
    }

    /** The language's own name for itself, shown in place of its code. */
    function DisplayName(): (r: string)
      ensures r != [] && r != RawValue()
    {
      match this
      case English => "English"
      case Polish => "Polski"
    }
  }

  /** `AppLanguage(rawValue:)`. */
  function AppLanguageFromRawValue(raw: string): (r: Option<AppLanguage>)
    ensures r.Some? ==> r.value.RawValue() == raw
  {
    if raw == "en" then Some(English)
    else if raw == "pl" then Some(Polish)
    else None
  }

  /** No two languages show the same name. */
  lemma DisplayNameInjective(l: AppLanguage, m: AppLanguage)
    ensures l.DisplayName() == m.DisplayName() ==> l == m
  {
  }

  /** Raw values are distinct and decode back to their language. */
  lemma AppLanguageRoundTrip(l: AppLanguage, m: AppLanguage)
    ensures AppLanguageFromRawValue(l.RawValue()) == Some(l)
    ensures l.RawValue() == m.RawValue() ==> l == m
  {
  }

  const EnglishTable: map<string, string> := map[
    "settings.title" := "Settings",
    "settings.language" := "Language",
    "settings.globalShortcut" := "Global Shortcut",
    "settings.recording" := "Recording... Press keys",
    "settings.defaultShortcut" := "⌘⇧V (Default)",
    "settings.done" := "Done",
    "clipboard.title" := "Clipboard History",
    "clipboard.search" := "Search",
    "clipboard.itemsCount" := "items",
    "clipboard.clearUnpinned" := "Clear Unpinned",
    "clipboard.clearAll" := "Clear All",
    "clipboard.copied" := "Copied!",
    "filter.all" := "All",
    "filter.text" := "Text",
    "filter.images" := "Images",
    "filter.videos" := "Videos",
    "filter.files" := "Files",
    "filter.urls" := "URLs",
    "filter.pinned" := "Pinned",
    "empty.noFound" := "No items found",
    "empty.noClipboard" := "No clipboard items",
    "empty.noText" := "No text items",
    "empty.noImages" := "No images",
    "empty.noVideos" := "No videos",
    "empty.noFiles" := "No files",
    "empty.noUrls" := "No URLs",
    "empty.noPinned" := "No pinned items",
    "emptySub.trySearch" := "Try adjusting your search terms",
    "emptySub.copyStart" := "Copy something to get started",
    "emptySub.copyText" := "Copy some text to see it here",
    "emptySub.copyImage" := "Copy an image to see it here",
    "emptySub.copyVideo" := "Copy a video file to see it here",
    "emptySub.copyFile" := "Copy a file to see it here",
    "emptySub.copyUrl" := "Copy a URL to see it here",
    "emptySub.pinItems" := "Pin items to keep them here",
    "date.today" := "Today",
    "date.yesterday" := "Yesterday",
    "date.past" := "Past",
    "context.copy" := "Copy",
    "context.pin" := "Pin",
    "context.unpin" := "Unpin",
    "context.delete" := "Delete",
    "context.close" := "Close"
  ]

  const PolishTable: map<string, string> := map[
    "settings.title" := "Ustawienia",
    "settings.language" := "Język",
    "settings.globalShortcut" := "Globalny Skrót Kl.",
    "settings.recording" := "Nagrywanie... Naciśnij klawisze",
    "settings.defaultShortcut" := "⌘⇧V (Domyślny)",
    "settings.done" := "Gotowe",
    "clipboard.title" := "Historia Schowka",
    "clipboard.search" := "Szukaj",
    "clipboard.itemsCount" := "elementów",
    "clipboard.clearUnpinned" := "Wyczyść nieprzypięte",
    "clipboard.clearAll" := "Wyczyść wszystko",
    "clipboard.copied" := "Skopiowano!",
    "filter.all" := "Kaskada",
    "filter.text" := "Tekst",
    "filter.images" := "Zdjęcia",
    "filter.videos" := "Nagrania",
    "filter.files" := "Pliki",
    "filter.urls" := "Linki",
    "filter.pinned" := "Przypięte",
    "empty.noFound" := "Nie znaleziono elementów",
    "empty.noClipboard" := "Brak elementów w schowku",
    "empty.noText" := "Brak tekstu",
    "empty.noImages" := "Brak obrazków",
    "empty.noVideos" := "Brak nagrań",
    "empty.noFiles" := "Brak plików",
    "empty.noUrls" := "Brak linków",
    "empty.noPinned" := "Brak przypiętych",
    "emptySub.trySearch" := "Spróbuj skrócić lub zmienić frazę wyszukiwania.",
    "emptySub.copyStart" := "Skopiuj coś, aby zacząć.",
    "emptySub.copyText" := "Skopiuj jakiś tekst, aby się tu pojawił.",
    "emptySub.copyImage" := "Skopiuj obrazek, aby się tu pojawił.",
    "emptySub.copyVideo" := "Skopiuj plik wideo z Findera, aby się tu pojawił.",
    "emptySub.copyFile" := "Skopiuj plik z Findera, aby się tu pojawił.",
    "emptySub.copyUrl" := "Strzel w jakiś link, by go tu wrzucić.",
    "emptySub.pinItems" := "Możesz przypiąć istotne dla Ciebie elementy, aby tu wisiały.",
    "date.today" := "Dzisiaj",
    "date.yesterday" := "Wczoraj",
    "date.past" := "Przeszłe",
    "context.copy" := "Kopiuj",
    "context.pin" := "Przypnij",
    "context.unpin" := "Odepnij",
    "context.delete" := "Usuń",
    "context.close" := "Zamknij"
  ]

  /** The inner dictionary of `translations` for a language. */
  function Table(lang: AppLanguage): map<string, string> {
    match lang
    case English => EnglishTable
    case Polish => PolishTable
  }

  /** The string shown for a missing key. */
  function Bracketed(key: string): (r: string)
    ensures |r| == |key| + 2 && r[0] == '[' && r[|r| - 1] == ']' && r[1..|r| - 1] == key
  {
    "[" + key + "]"
  }

  /**
   * `localized(_:)`: the current language's entry, else the English one,
   * else the key in brackets.
   */
  function Localized(lang: AppLanguage, key: string): (r: string)
    ensures key in Table(lang) ==> r == Table(lang)[key]
    ensures key !in Table(lang) && key in EnglishTable ==> r == EnglishTable[key]
    ensures key !in Table(lang) && key !in EnglishTable ==> r == Bracketed(key)
  {
    if key in Table(lang) then Table(lang)[key]
    else if key in EnglishTable then EnglishTable[key]
    else Bracketed(key)
  }

  /** Both languages translate the same keys. */
  lemma SameKeys()
    ensures EnglishTable.Keys == PolishTable.Keys
  {
  }

  /**
   * In English the answer is the English entry or the bracketed key, and the
   * bracketed key comes back, in any language, exactly for keys neither table has.
   */
  lemma LocalizedFallback(lang: AppLanguage, key: string)
    ensures lang == English ==> Localized(lang, key) == (if key in EnglishTable then EnglishTable[key] else Bracketed(key))
    ensures key in EnglishTable ==> key in Table(lang) && Localized(lang, key) == Table(lang)[key]
    ensures key !in EnglishTable ==> Localized(lang, key) == Bracketed(key)
  {
    SameKeys();
  }
}
