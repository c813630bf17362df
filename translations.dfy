/**
 * Language selection for the user-interface strings: the first browser
 * language whose primary subtag is Portuguese or Spanish decides the bundle,
 * and Portuguese is the fallback.
 */
module I18n {
  import opened Wrappers
  import opened Text

  /** The strings of one bundle that the web part reads (the keys of `pt.json` and `es.json`). */
  datatype Translations = Translations(
    selectLibrary: string,
    metadataColumnLevel1: string,
    metadataColumnLevel2: string,
    metadataColumnLevel3: string,
    noColumn: string,
    selectLibraryFirst: string,
    selectedLibraryNotFoundOrMissingId: string,
    errorLoadingLibraryOptions: string,
    errorLoadingLibraries: string,
    errorLoadingColumnOptions: string,
    errorLoadingColumns: string)

  /** `Lang`, the keys of `TRANSLATIONS`. */
  datatype Lang = Pt | Es

  function LangCode(l: Lang): string {
    match l
    case Pt => "pt"
    case Es => "es"
  }

  /** `TRANSLATIONS`: one bundle per language. */
  datatype TranslationTable = TranslationTable(pt: Translations, es: Translations) {
    function Bundle(l: Lang): Translations {
      match l
      case Pt => pt
      case Es => es
    }
  }

  /** `isLang(code)`. */
  predicate IsLang(code: string) {
    code == "pt" || code == "es"
  }

  function ToLang(code: string): (l: Lang)
    requires IsLang(code)
    ensures LangCode(l) == code
  {
    if code == "pt" then Pt else Es
  }

  lemma IsLangExactly(code: string)
    ensures IsLang(code) <==> exists l: Lang :: LangCode(l) == code
  {
    if IsLang(code) {
      assert LangCode(ToLang(code)) == code;
    }
  }

  /** The list the candidates are drawn from: `navigator.languages` when non-empty, else `[navigator.language]`. */
  function SourceList(languages: seq<string>, language: string): seq<string> {
    if |languages| > 0 then languages else [language]
  }

  /** `.filter(Boolean).map((l) => l.toLowerCase())`. */
  function Candidates(src: seq<string>): (r: seq<string>)
    ensures forall c :: c in r ==> c != ""
  {
    if src == [] then []
    else (if src[0] == "" then [] else [ToLower(src[0])]) + Candidates(src[1..])
  }

  /** `l.split("-")[0]` */
  function BaseTag(l: string): string {
    BeforeFirst(l, '-')
  }

  /** The `for` loop: the base tag of the first candidate that names a known language. */
  function FirstLang(candidates: seq<string>): Option<Lang> {
    if candidates == [] then None
    else if IsLang(BaseTag(candidates[0])) then Some(ToLang(BaseTag(candidates[0])))
    else FirstLang(candidates[1..])
  }

  /** A browser language tag whose lower-cased primary subtag is a supported language. */
  predicate Selects(tag: string) {
    IsLang(BaseTag(ToLower(tag)))
  }

  /** `getUserLanguage()` over `navigator.languages` and `navigator.language` (`""` when undefined). */
  function GetUserLanguage(languages: seq<string>, language: string): Lang {
    FirstLang(Candidates(SourceList(languages, language))).GetOr(Pt)
  }

  /** The language is that of the first tag that selects one, and Portuguese when none does. */
  lemma GetUserLanguageFirstSupported(languages: seq<string>, language: string)
    ensures var src := SourceList(languages, language);
            (forall i :: 0 <= i < |src| ==> !Selects(src[i])) ==> GetUserLanguage(languages, language) == Pt
    ensures var src := SourceList(languages, language);
            forall i :: 0 <= i < |src| && Selects(src[i]) && (forall j :: 0 <= j < i ==> !Selects(src[j])) ==>
              LangCode(GetUserLanguage(languages, language)) == BaseTag(ToLower(src[i]))
  {
    FirstLangOfCandidates(SourceList(languages, language));
    FirstSelectedNone(SourceList(languages, language));
    FirstSelectedIsFirst(SourceList(languages, language));
  }

  /** The language a browser tag selects, if any. */
  function TagLang(tag: string): Option<Lang> {
    if Selects(tag) then Some(ToLang(BaseTag(ToLower(tag)))) else None
  }

  /** Reference definition: the language of the first tag in the source list that selects one. */
  function FirstSelected(src: seq<string>): Option<Lang> {
    if src == [] then None
    else if Selects(src[0]) then TagLang(src[0])
    else FirstSelected(src[1..])
  }

  /** No language exactly when no tag selects one. */
  lemma {:induction false} FirstSelectedNone(src: seq<string>)
    ensures FirstSelected(src).None? <==> forall i :: 0 <= i < |src| ==> !Selects(src[i])
  {
    if src != [] && !Selects(src[0]) {
      var tail := src[1..];
      FirstSelectedNone(tail);
      if FirstSelected(src).None? {
        forall i | 0 <= i < |src| ensures !Selects(src[i]) {
          if i > 0 {
            assert src[i] == tail[i - 1];
          }
        }
      } else {
        var k :| 0 <= k < |tail| && Selects(tail[k]);
        assert src[k + 1] == tail[k];
      }
    }
  }

  /** Otherwise the language is the one of the first tag that selects one. */
  lemma {:induction false} FirstSelectedIsFirst(src: seq<string>)
    ensures forall i :: 0 <= i < |src| && Selects(src[i]) && (forall j :: 0 <= j < i ==> !Selects(src[j])) ==>
              FirstSelected(src) == TagLang(src[i])
  {
    if src != [] && !Selects(src[0]) {
      var tail := src[1..];
      FirstSelectedIsFirst(tail);
      forall i | 0 <= i < |src| && Selects(src[i]) && (forall j :: 0 <= j < i ==> !Selects(src[j]))
        ensures FirstSelected(src) == TagLang(src[i])
      {
        assert src[i] == tail[i - 1];
        forall j | 0 <= j < i - 1 ensures !Selects(tail[j]) {
          assert tail[j] == src[j + 1];
        }
      }
    }
  }

  /** Dropping empty entries and lower-casing first does not change which tag is selected. */
  lemma {:induction false} FirstLangOfCandidates(src: seq<string>)
    ensures FirstLang(Candidates(src)) == FirstSelected(src)
  {
    if src != [] {
      FirstLangOfCandidates(src[1..]);
      if src[0] == "" {
        assert BaseTag(ToLower(src[0])) == "";
        assert Candidates(src) == Candidates(src[1..]);
      } else {
        var c := Candidates(src);
        assert c == [ToLower(src[0])] + Candidates(src[1..]);
        assert c[0] == ToLower(src[0]) && c[1..] == Candidates(src[1..]);
      }
    }
  }

  /** With no usable candidate (an empty list included) the language is Portuguese. */
  lemma NoCandidateFallsBackToPt(languages: seq<string>)
    requires forall i :: 0 <= i < |languages| ==> !Selects(languages[i])
    ensures |languages| > 0 ==> GetUserLanguage(languages, "es") == Pt
    ensures GetUserLanguage([], "") == Pt
  {
    GetUserLanguageFirstSupported(languages, "es");
    GetUserLanguageFirstSupported([], "");
    assert BaseTag(ToLower("")) == "";
  }

  /** Browser order decides and case is ignored: `["ES-mx", "pt-BR"]` selects Spanish. */
  lemma BrowserOrderDecides()
    ensures GetUserLanguage(["ES-mx", "pt-BR"], "pt") == Es
  {
    assert ToLower("ES-mx") == "es-mx";
    assert "es-mx" == "es" + ['-'] + "mx";
    BeforeFirstOfPrefix("es", "mx", '-');
  }

  /** A tag with an unsupported primary subtag is skipped: `["en-US", "pt-BR", "es"]` selects Portuguese. */
  lemma UnsupportedTagIsSkipped()
    ensures GetUserLanguage(["en-US", "pt-BR", "es"], "es") == Pt
  {
    assert ToLower("en-US") == "en-us";
    assert "en-us" == "en" + ['-'] + "us";
    BeforeFirstOfPrefix("en", "us", '-');
    assert ToLower("pt-BR") == "pt-br";
    assert "pt-br" == "pt" + ['-'] + "br";
    BeforeFirstOfPrefix("pt", "br", '-');
  }

  /** An empty `navigator.languages` falls back to `navigator.language`. */
  lemma SingleLanguageFallback()
    ensures GetUserLanguage([], "es-AR") == Es
  {
    assert ToLower("es-AR") == "es-ar";
    assert "es-ar" == "es" + ['-'] + "ar";
    BeforeFirstOfPrefix("es", "ar", '-');
  }

  /** `getTranslations()`. */
  function GetTranslations(table: TranslationTable, languages: seq<string>, language: string): (t: Translations)
    ensures t == table.pt || t == table.es
  {
    table.Bundle(GetUserLanguage(languages, language))
  }

  /** The bundle is the one stored under the selected language, and the fallback is Portuguese. */
  lemma GetTranslationsSelectsBundle(table: TranslationTable, languages: seq<string>, language: string)
    ensures var src := SourceList(languages, language);
            (forall i :: 0 <= i < |src| ==> !Selects(src[i])) ==> GetTranslations(table, languages, language) == table.pt
    ensures var src := SourceList(languages, language);
            forall i :: 0 <= i < |src| && Selects(src[i]) && (forall j :: 0 <= j < i ==> !Selects(src[j])) ==>
              GetTranslations(table, languages, language)
                == table.Bundle(ToLang(BaseTag(ToLower(src[i]))))
  {
    var l := GetUserLanguage(languages, language);
    var src := SourceList(languages, language);
    GetUserLanguageFirstSupported(languages, language);
    forall i | 0 <= i < |src| && Selects(src[i]) && (forall j :: 0 <= j < i ==> !Selects(src[j]))
      ensures l == ToLang(BaseTag(ToLower(src[i])))
    {
      assert LangCode(l) == BaseTag(ToLower(src[i]));
    }
  }
}
