/**
  The stemmer language table: the two-letter codes the Rust side accepts
  when a field asks for a stemming tokenizer, and the error for any other
  code. The Go side declares its own list of language codes, some of which
  the table does not carry.
*/
module Stemmer {
  import opened Wrappers

  /** The stemmer languages the table maps to. */
  datatype Language =
    | Arabic | Danish | Dutch | English | Finnish | French | German | Greek | Hungarian
    | Italian | Norwegian | Portuguese | Romanian | Russian | Spanish | Swedish | Tamil | Turkish

  datatype Stemmer = Stemmer(language: Language)

  /** `LANGUAGES`: exact, case-sensitive codes. */
  const LANGUAGES: map<string, Language> := map[
    "ar" := Arabic, "da" := Danish, "nl" := Dutch, "en" := English, "fi" := Finnish,
    "fr" := French, "de" := German, "el" := Greek, "hu" := Hungarian, "it" := Italian,
    "no" := Norwegian, "pt" := Portuguese, "ro" := Romanian, "ru" := Russian,
    "es" := Spanish, "sv" := Swedish, "ta" := Tamil, "tr" := Turkish]

  /** The code the table lists for each language: the table read backwards. */
  function CodeOf(l: Language): (code: string)
    ensures |code| == 2
  {
    match l
    case Arabic => "ar"
    case Danish => "da"
    case Dutch => "nl"
    case English => "en"
    case Finnish => "fi"
    case French => "fr"
    case German => "de"
    case Greek => "el"
    case Hungarian => "hu"
    case Italian => "it"
    case Norwegian => "no"
    case Portuguese => "pt"
    case Romanian => "ro"
    case Russian => "ru"
    case Spanish => "es"
    case Swedish => "sv"
    case Tamil => "ta"
    case Turkish => "tr"
  }

  /** `create_stemmer`: a stemmer for a listed code, otherwise the error message. */
  function CreateStemmer(lang: string): (r: Result<Stemmer, string>)
    ensures r.Ok? <==> exists l: Language :: CodeOf(l) == lang
    ensures r.Ok? ==> CodeOf(r.value.language) == lang
    ensures r.Err? ==> r.error == lang + " is an unsupported language"
  {
    if lang in LANGUAGES then
      TableIsCodeOf(lang);
      Ok(Stemmer(LANGUAGES[lang]))
    else
      TableIsCodeOf(lang);
      Err(lang + " is an unsupported language")
  }

  /** The table and `CodeOf` are the same relation. */
  lemma TableIsCodeOf(lang: string)
    ensures lang in LANGUAGES <==> exists l: Language :: CodeOf(l) == lang
    ensures lang in LANGUAGES ==> CodeOf(LANGUAGES[lang]) == lang
  {
  }

  /** Every language is reachable, from its own code, and from no other. */
  lemma CodesRoundTrip(l: Language, lang: string)
    ensures CreateStemmer(CodeOf(l)) == Ok(Stemmer(l))
    ensures CreateStemmer(lang) == Ok(Stemmer(l)) ==> lang == CodeOf(l)
  {
  }

  /** The table is injective: two accepted codes for one language are the same code. */
  lemma TableInjective(a: string, b: string)
    requires a in LANGUAGES && b in LANGUAGES && LANGUAGES[a] == LANGUAGES[b]
    ensures a == b
  {
  }

  /** Lookup is exact: an upper-case code is not a listed code. */
  lemma CaseSensitive()
    ensures CreateStemmer("EN") == Err("EN is an unsupported language")
  {
    assert "EN" !in LANGUAGES;
    assert "EN" + " is an unsupported language" == "EN is an unsupported language";
  }

  /** The Go `Language` constants, in declaration order. */
  const GO_LANGUAGES: seq<string> := [
    "ar", "hy", "eu", "ca", "da", "nl", "en", "et", "fi", "fr", "de", "el", "hi", "hu", "id",
    "ga", "it", "lt", "ne", "no", "pt", "ro", "ru", "sr", "es", "sv", "ta", "tr", "yi"]

  /** The Go-declared codes the table does not list. */
  const GO_ONLY: set<string> := {"hy", "eu", "ca", "et", "hi", "id", "ga", "lt", "ne", "sr", "yi"}

  /**
    A Go-declared language is accepted exactly when it is not one of the
    eleven the table leaves out; every language of the table is declared
    on the Go side.
  */
  lemma GoLanguagesAccepted(i: nat)
    requires i < |GO_LANGUAGES|
    ensures CreateStemmer(GO_LANGUAGES[i]).Ok? <==> GO_LANGUAGES[i] !in GO_ONLY
  {
  }

  lemma TableDeclaredInGo(l: Language)
    ensures CodeOf(l) in GO_LANGUAGES
  {
  }
}
