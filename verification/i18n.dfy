/** The language manager (js/i18n.js): picks the page language from a
    saved choice, the visitor's country or the browser language, switches
    it on request, and looks up translations and page metadata. Storage,
    the country lookup and the browser setting are inputs. */
module I18n {
  import opened Wrappers
  import opened Text

  const SupportedLangs: seq<string> := ["zh-CN", "en-US", "de-DE", "ja-JP", "ko-KR"]

  /** The storage key that remembers the choice. */
  const StorageKey: string := "battlefield6-lang"

  /** The language a new manager starts with. */
  const InitialLang: string := "zh-CN"

  /** Country code to language. */
  const CountryLangs: map<string, string> := map[
    "CN" := "zh-CN", "TW" := "zh-CN", "HK" := "zh-CN",
    "US" := "en-US", "GB" := "en-US", "CA" := "en-US", "AU" := "en-US",
    "DE" := "de-DE", "AT" := "de-DE", "CH" := "de-DE",
    "JP" := "ja-JP", "KR" := "ko-KR"]

  /** Every language the country table names is supported. */
  lemma CountryLangsSupported(code: string)
    ensures code in CountryLangs ==> CountryLangs[code] in SupportedLangs
  {
  }

  /** A saved language counts only when it is supported. */
  function SavedChoice(saved: Option<string>): (r: Option<string>)
    ensures r.Some? <==> saved.Some? && saved.value in SupportedLangs
    ensures r.Some? ==> r == saved
  {
    if saved.Some? && saved.value in SupportedLangs then saved else None
  }

  /** The country table's language; `None` for a failed lookup or an
      unlisted code. */
  function CountryChoice(country: Option<string>): (r: Option<string>)
    ensures r.Some? <==> country.Some? && country.value in CountryLangs
    ensures r.Some? ==> r.value in SupportedLangs && r.value == CountryLangs[country.value]
  {
    if country.Some? then Lookup(CountryLangs, country.value) else None
  }

  /** The browser fallback: the lower-cased code's two-letter prefix picks
      the language, anything else gives English. */
  function BrowserChoice(browserLang: string): (l: string)
    ensures l in SupportedLangs
    ensures StartsWith(ToLower(browserLang), "zh") ==> l == "zh-CN"
    ensures StartsWith(ToLower(browserLang), "en") ==> l == "en-US"
    ensures StartsWith(ToLower(browserLang), "de") ==> l == "de-DE"
    ensures StartsWith(ToLower(browserLang), "ja") ==> l == "ja-JP"
    ensures StartsWith(ToLower(browserLang), "ko") ==> l == "ko-KR"
    ensures !KnownPrefix(ToLower(browserLang)) ==> l == "en-US"
  {
    var code := ToLower(browserLang);
    if StartsWith(code, "zh") then "zh-CN"
    else if StartsWith(code, "en") then "en-US"
    else if StartsWith(code, "de") then "de-DE"
    else if StartsWith(code, "ja") then "ja-JP"
    else if StartsWith(code, "ko") then "ko-KR"
    else "en-US"
  }

  /** The browser match ignores letter case: "ZH-tw" and "zh-TW" agree. */
  lemma BrowserChoiceIgnoresCase(a: string, b: string)
    requires ToLower(a) == ToLower(b)
    ensures BrowserChoice(a) == BrowserChoice(b)
  {
  }

  /** The code starts with one of the five two-letter prefixes. */
  predicate KnownPrefix(code: string) {
    StartsWith(code, "zh") || StartsWith(code, "en") || StartsWith(code, "de")
    || StartsWith(code, "ja") || StartsWith(code, "ko")
  }

  /** English is chosen exactly for an "en" code and for every code without
      one of the five prefixes, such as "ea", "kr", "z" or "". */
  lemma UnknownBrowserLanguageIsEnglish(browserLang: string)
    ensures BrowserChoice(browserLang) == "en-US" <==>
      StartsWith(ToLower(browserLang), "en") || !KnownPrefix(ToLower(browserLang))
    ensures BrowserChoice("ea") == "en-US" && BrowserChoice("kr") == "en-US" && BrowserChoice("z") == "en-US"
  {
    assert ToLower("ea") == "ea" && ToLower("kr") == "kr" && ToLower("z") == "z";
    assert "ea"[..2][1] != "en"[1] && "ea"[..2][0] != "zh"[0];
    assert "kr"[..2][1] != "ko"[1] && "kr"[..2][0] != "zh"[0] && "kr"[..2][0] != "en"[0];
    assert |"z"| < 2;
  }

  /** `detectLanguage` from the language `current` held before: the saved
      choice, else the country, else the browser language. With no browser
      language at all the lower-casing throws and `current` is kept. */
  function DetectLanguage(current: string, saved: Option<string>, country: Option<string>,
                          browserLang: Option<string>): (l: string)
    ensures saved.Some? && saved.value in SupportedLangs ==> l == saved.value
    ensures SavedChoice(saved).None? && CountryChoice(country).Some? ==> l == CountryChoice(country).value
    ensures SavedChoice(saved).None? && CountryChoice(country).None? && browserLang.Some? ==> l == BrowserChoice(browserLang.value)
    ensures SavedChoice(saved).None? && CountryChoice(country).None? && browserLang.None? ==> l == current
    ensures current in SupportedLangs ==> l in SupportedLangs
  {
    var fallback := if browserLang.Some? then BrowserChoice(browserLang.value) else current;
    SavedChoice(saved).OrElse(CountryChoice(country)).GetOr(fallback)
  }

  /** The language of the first `translatePage` in `init`: detection is not
      awaited, so only the saved choice, which is read before detection's
      first `await`, is in place; otherwise the constructor's "zh-CN" is. */
  function FirstTranslationLang(saved: Option<string>): (l: string)
    ensures saved.Some? && saved.value in SupportedLangs ==> l == saved.value
    ensures SavedChoice(saved).None? ==> l == InitialLang
    ensures l in SupportedLangs
  {
    SavedChoice(saved).GetOr(InitialLang)
  }

  /** Without a saved choice the first translation is Chinese even when
      detection later settles on another language. */
  lemma FirstTranslationMayDifferFromDetection()
    ensures FirstTranslationLang(None) == "zh-CN"
    ensures DetectLanguage(InitialLang, None, Some("US"), None) == "en-US"
  {
    assert "US" in CountryLangs;
  }

  /** A new manager always ends detection on a supported language. */
  lemma DetectionAlwaysSupported(saved: Option<string>, country: Option<string>, browserLang: Option<string>)
    ensures DetectLanguage(InitialLang, saved, country, browserLang) in SupportedLangs
  {
  }

  /** The manager's state: the current language and the stored choice. */
  datatype State = State(currentLang: string, stored: Option<string>)

  /** `switchLanguage`: an unsupported code changes nothing; a supported
      one becomes current and is stored. */
  function SwitchLanguage(s: State, code: string): (r: State)
    ensures code !in SupportedLangs ==> r == s
    ensures code in SupportedLangs ==> r.currentLang == code && r.stored == Some(code)
  {
    if code !in SupportedLangs then s else State(code, Some(code))
  }

  /** After a switch, the next detection picks the switched-to language. */
  lemma SwitchIsRemembered(s: State, code: string, country: Option<string>, browserLang: Option<string>)
    requires code in SupportedLangs
    ensures DetectLanguage(InitialLang, SwitchLanguage(s, code).stored, country, browserLang) == code
  {
  }

  /** Switching preserves a supported current language. */
  lemma SwitchKeepsSupported(s: State, code: string)
    requires s.currentLang in SupportedLangs
    ensures SwitchLanguage(s, code).currentLang in SupportedLangs
  {
  }

  /** The loaded translation tables, per language. */
  type Translations = map<string, map<string, string>>

  /** `getTranslation`: the key itself when the language has no table,
      `None` (undefined) when the table lacks the key. */
  function GetTranslation(t: Translations, lang: string, key: string): (r: Option<string>)
    ensures lang !in t ==> r == Some(key)
    ensures lang in t ==> r == Lookup(t[lang], key)
  {
    if lang in t then Lookup(t[lang], key) else Some(key)
  }

  /** The text an element shows after `translatePage`: the translation when
      it is a non-empty string, otherwise the text it had. */
  function TranslateElement(text: string, translation: Option<string>): (r: string)
    ensures translation.None? || translation == Some("") ==> r == text
    ensures translation.Some? && translation.value != "" ==> r == translation.value
  {
    if translation.Some? && |translation.value| > 0 then translation.value else text
  }

  /** Translating with an existing entry and then again leaves the same text. */
  lemma TranslateIdempotent(t: Translations, lang: string, key: string, text: string)
    ensures var once := TranslateElement(text, GetTranslation(t, lang, key));
            TranslateElement(once, GetTranslation(t, lang, key)) == once
  {
  }

  /** `updatePageMeta`'s lookup: the language's entry, else the English one. */
  function MetaText(table: map<string, string>, lang: string): (r: Option<string>)
    ensures lang in table && table[lang] != "" ==> r == Some(table[lang])
    ensures !(lang in table && table[lang] != "") ==> r == Lookup(table, "en-US")
  {
    if lang in table && |table[lang]| > 0 then Some(table[lang]) else Lookup(table, "en-US")
  }

  const Titles: map<string, string> := map[
    "zh-CN" := "Battlefield 6 - 战地风云6官方倒计时 | 发售时间、服务器状态",
    "en-US" := "Battlefield 6 - Official Countdown | Release Date & Server Status",
    "de-DE" := "Battlefield 6 - Offizieller Countdown | Veröffentlichungsdatum & Server-Status",
    "ja-JP" := "Battlefield 6 - 公式カウントダウン | 発売日・サーバー状況",
    "ko-KR" := "Battlefield 6 - 공식 카운트다운 | 출시일 및 서버 상태"]

  /** Every language, known or not, gets a page title. */
  lemma EveryLanguageHasTitle(lang: string)
    ensures MetaText(Titles, lang).Some?
    ensures lang !in Titles ==> MetaText(Titles, lang) == Some(Titles["en-US"])
  {
  }
}
