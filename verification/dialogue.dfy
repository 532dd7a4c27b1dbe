/**
 * The bot's reply texts: the static dialogue table, the language lookup with
 * fallback to the configured default language, and the language code read
 * from a tweet.
 */
module Dialogue {
  import opened Wrappers

  /** One dialogue entry: language code to localised text. */
  type Table = map<string, string>

  const AhoyEn := "Hello, I am RiskMapBot, reply with #flood to send me your flood report."
  const AhoyId := "Halo, saya RiskMapBot. Untuk melaporkan banjir di sekitarmu, silakan balas dengan #banjir."
  const CardEn := "Hi! Open this link to input flood location, flood description, & photos."
  const CardId := "Hai! Gunakan link ini untuk menginput lokasi banjir, keterangan, & foto."

  /** `dialogue.ahoy` */
  const Ahoy: Table := map["en" := AhoyEn, "id" := AhoyId]

  /** `dialogue.requests.card` */
  const Card: Table := map["en" := CardEn, "id" := CardId]

  /** The language codes of a tweet: its `lang` when that is present and
      truthy (so not the empty string), otherwise none. */
  function ParseLangs(lang: Option<string>): (langs: seq<string>)
    ensures |langs| <= 1
    ensures |langs| == 1 <==> lang.Some? && lang.value != ""
    ensures forall k :: 0 <= k < |langs| ==> langs[k] == lang.value
  {
    if lang.Some? && lang.value != "" then [lang.value] else []
  }

  /** `langs[0]`, which is `undefined` for an empty list. */
  function First(langs: seq<string>): (l: Option<string>)
    ensures l.Some? <==> |langs| > 0
    ensures l.Some? ==> l.value == langs[0]
  {
    if |langs| == 0 then None else Some(langs[0])
  }

  /** The language the replies to a tweet are written in. */
  function TweetLanguage(lang: Option<string>): (l: Option<string>)
    ensures l.Some? <==> lang.Some? && lang.value != ""
    ensures l.Some? ==> l == lang
  {
    First(ParseLangs(lang))
  }

  /** The text for `language`; when the table has no entry for it (or there is
      no language at all) the text for `defaultLanguage`, which is `undefined`
      when that entry is missing too. */
  function GetDialogue(table: Table, language: Option<string>, defaultLanguage: string): (text: Option<string>)
    ensures language.Some? && language.value in table ==> text == Some(table[language.value])
    ensures !(language.Some? && language.value in table) ==>
              (text.Some? <==> defaultLanguage in table) &&
              (text.Some? ==> text.value == table[defaultLanguage])
  {
    if language.Some? && language.value in table then Some(table[language.value])
    else if defaultLanguage in table then Some(table[defaultLanguage])
    else None
  }

  /** A miss answers exactly as a request in the default language does. */
  lemma FallbackIsDefault(table: Table, language: Option<string>, defaultLanguage: string)
    requires language.None? || language.value !in table
    ensures GetDialogue(table, language, defaultLanguage) == GetDialogue(table, Some(defaultLanguage), defaultLanguage)
  {
  }

  /** With the default language set to one the table knows, every lookup
      yields one of the table's own texts. */
  lemma TotalWithKnownDefault(table: Table, language: Option<string>, defaultLanguage: string)
    requires defaultLanguage in table
    ensures GetDialogue(table, language, defaultLanguage).Some?
    ensures GetDialogue(table, language, defaultLanguage).value in table.Values
  {
  }

  /** A French tweet with English as the default gets the English ahoy text. */
  lemma AhoyFrenchFallsBack()
    ensures GetDialogue(Ahoy, TweetLanguage(Some("fr")), "en") == Some(AhoyEn)
  {
  }
}
