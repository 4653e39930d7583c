/**
  `useTranslation(language)`: the interface strings of one language, with English and
  finally the key itself as fallbacks. The translation tables are data and are passed in.
 */
module UseTranslation {

  /** One language's table: translation key to text. A key the table lacks reads as `undefined`. */
  type Table = map<string, string>

  /**
    The `translations` record. Its English table is always there; `others` holds the
    tables of the remaining supported languages.
   */
  datatype Translations = Translations(english: Table, others: map<string, Table>)

  /** `translations[language] || translations.English`: every table is a truthy object. */
  function CurrentTable(tr: Translations, language: string): (table: Table)
    ensures language == "English" ==> table == tr.english
    ensures language != "English" && language in tr.others ==> table == tr.others[language]
    ensures language != "English" && language !in tr.others ==> table == tr.english
  {
    if language == "English" then tr.english
    else if language in tr.others then tr.others[language]
    else tr.english
  }

  /** `table[key]` as a JavaScript condition sees it: a missing entry is `undefined`, falsy like `''`. */
  function Entry(table: Table, key: string): string {
    if key in table then table[key] else ""
  }

  /** `t(key)`: `currentTranslations[key] || translations.English[key] || key`. */
  function Translate(tr: Translations, language: string, key: string): (text: string)
    ensures text == Entry(CurrentTable(tr, language), key)
         || text == Entry(tr.english, key)
         || text == key
    ensures Entry(CurrentTable(tr, language), key) != "" ==> text == Entry(CurrentTable(tr, language), key)
  {
    var current := Entry(CurrentTable(tr, language), key);
    if current != "" then current
    else
      var english := Entry(tr.english, key);
      if english != "" then english else key
  }

  /** The `t` the hook returns. */
  function Translator(tr: Translations, language: string): string -> string {
    key => Translate(tr, language, key)
  }

  /** An unsupported language reads exactly like English. */
  lemma UnknownLanguageIsEnglish(tr: Translations, language: string, key: string)
    requires language !in tr.others
    ensures Translate(tr, language, key) == Translate(tr, "English", key)
  {
  }

  /** The chain in full: the current table, else English, else the key. */
  lemma FallbackChain(tr: Translations, language: string, key: string)
    ensures var current := Entry(CurrentTable(tr, language), key);
            var english := Entry(tr.english, key);
            && (current != "" ==> Translate(tr, language, key) == current)
            && (current == "" && english != "" ==> Translate(tr, language, key) == english)
            && (current == "" && english == "" ==> Translate(tr, language, key) == key)
  {
  }

  /** English needs no second look: its own entry if non-empty, else the key. */
  lemma EnglishShortcut(tr: Translations, key: string)
    ensures Translate(tr, "English", key) == (if Entry(tr.english, key) != "" then Entry(tr.english, key) else key)
  {
  }

  /** `t` never yields the empty string for a non-empty key, whatever the tables hold. */
  lemma NeverEmpty(tr: Translations, language: string, key: string)
    requires key != ""
    ensures Translate(tr, language, key) != ""
  {
  }
}
