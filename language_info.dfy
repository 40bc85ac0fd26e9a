/** Mapping of language names and codes to the supported languages and to
    each language's pipeline properties file (LanguageInfo.java). */
module LanguageInfo {
  import opened Wrappers

  /** The languages the pipeline supports (enum HumanLanguage). */
  datatype HumanLanguage = Arabic | Chinese | English | French | German | Spanish

  /** The properties files: "StanfordCoreNLP", then a dash and the language's
      name for every language but English, then ".properties". */
  const PropertiesPrefix: string := "StanfordCoreNLP"
  const PropertiesSuffix: string := ".properties"
  const ArabicProperties: string := PropertiesPrefix + "-arabic" + PropertiesSuffix
  const ChineseProperties: string := PropertiesPrefix + "-chinese" + PropertiesSuffix
  const EnglishProperties: string := PropertiesPrefix + PropertiesSuffix
  const FrenchProperties: string := PropertiesPrefix + "-french" + PropertiesSuffix
  const GermanProperties: string := PropertiesPrefix + "-german" + PropertiesSuffix
  const SpanishProperties: string := PropertiesPrefix + "-spanish" + PropertiesSuffix

  /** The constant EnumMap filled by the static initialiser, as a total
      function: each language but English has the file named after it. */
  function LanguageToPropertiesFile(language: HumanLanguage): (r: string)
    ensures r == PropertiesPrefix + (if language == English then "" else "-" + Name(language)) + PropertiesSuffix
  {
    match language
    case Arabic => ArabicProperties
    case Chinese => ChineseProperties
    case English => EnglishProperties
    case French => FrenchProperties
    case German => GermanProperties
    case Spanish => SpanishProperties
  }

  // ---------------------------------------------------------------------
  // Case-insensitive comparison

  predicate IsAsciiLower(c: char) { 'a' <= c <= 'z' }

  function ToUpperAscii(c: char): char
  {
    if IsAsciiLower(c) then (c as int - 32) as char else c
  }

  /** ASCII lower-casing of one character; every other character is kept. */
  function ToLowerAscii(c: char): char
  {
    if 'A' <= c <= 'Z' then (c as int + 32) as char else c
  }

  /** ASCII lower-casing of a whole string. */
  function LowerAscii(s: string): (r: string)
    ensures |r| == |s|
    ensures forall i :: 0 <= i < |s| ==> r[i] == ToLowerAscii(s[i])
  {
    seq(|s|, i requires 0 <= i < |s| => ToLowerAscii(s[i]))
  }

  /** Whether Java's String.equalsIgnoreCase matches the character `c` against
      the ASCII lower-case letter `l`: equal, equal after upper-casing, or equal
      after upper- then lower-casing. Besides `l` and its capital, Java accepts
      dotless i (U+0131) and dotted capital I (U+0130) for `i`, long s (U+017F)
      for `s`, and the Kelvin sign (U+212A) for `k`. */
  predicate FoldsTo(c: char, l: char)
    requires IsAsciiLower(l)
  {
    || c == l
    || c == ToUpperAscii(l)
    || (l == 'i' && (c == '\U{0131}' || c == '\U{0130}'))
    || (l == 's' && c == '\U{017F}')
    || (l == 'k' && c == '\U{212A}')
  }

  predicate AllAsciiLower(word: string)
  {
    forall i :: 0 <= i < |word| ==> IsAsciiLower(word[i])
  }

  /** `s.equalsIgnoreCase(word)` for a lower-case ASCII literal `word`: only
      strings of the word's length match, and every string whose ASCII
      lower-casing is the word does. */
  function EqualsIgnoreCase(s: string, word: string): (r: bool)
    requires AllAsciiLower(word)
    ensures r ==> |s| == |word|
    ensures LowerAscii(s) == word ==> r
  {
    |s| == |word| && forall i :: 0 <= i < |s| ==> FoldsTo(s[i], word[i])
  }

  // ---------------------------------------------------------------------
  // The lookups of LanguageInfo

  /** getLanguageFromString: the first matching name or code in the source's
      order; None stands for the null returned for anything else. The
      language found is one the input spells (GetLanguageFromStringDenotes
      shows it is the only one). */
  function GetLanguageFromString(s: string): (r: Option<HumanLanguage>)
    ensures r.Some? ==> Denotes(s, r.value)
  {
    if EqualsIgnoreCase(s, "arabic") || EqualsIgnoreCase(s, "ar") then Some(Arabic)
    else if EqualsIgnoreCase(s, "english") || EqualsIgnoreCase(s, "en") then Some(English)
    else if EqualsIgnoreCase(s, "chinese") || EqualsIgnoreCase(s, "zh") then Some(Chinese)
    else if EqualsIgnoreCase(s, "french") || EqualsIgnoreCase(s, "fr") then Some(French)
    else if EqualsIgnoreCase(s, "german") || EqualsIgnoreCase(s, "de") then Some(German)
    else if EqualsIgnoreCase(s, "spanish") || EqualsIgnoreCase(s, "es") then Some(Spanish)
    else None
  }

  /** getLanguagePropertiesFile: EnumMap.get of the looked-up language; the
      map answers null for a null key. */
  function GetLanguagePropertiesFile(s: string): (r: Option<string>)
    ensures r.Some? <==> GetLanguageFromString(s).Some?
    ensures r.Some? ==> r.value == LanguageToPropertiesFile(GetLanguageFromString(s).value)
  {
    match GetLanguageFromString(s)
    case Some(language) => Some(LanguageToPropertiesFile(language))
    case None => None
  }

  /** isStanfordCoreNLPSupportedLang: holds exactly for the spellings of
      some language. */
  function IsStanfordCoreNLPSupportedLang(s: string): (r: bool)
    ensures r <==> exists l: HumanLanguage :: Denotes(s, l)
  {
    GetLanguageFromStringAbsent(s);
    GetLanguageFromString(s) != None
  }

  /** isSegmenterLanguage(HumanLanguage): the languages named "arabic" and
      "chinese"; a null language compares unequal to both constants. */
  function IsSegmenterLanguage(language: Option<HumanLanguage>): (r: bool)
    ensures r <==> language.Some? && Name(language.value) in {"arabic", "chinese"}
  {
    language == Some(Arabic) || language == Some(Chinese)
  }

  /** isSegmenterLanguage(String): holds exactly for the spellings of Arabic
      and Chinese, so it is false for anything unrecognised. */
  function IsSegmenterLanguageName(s: string): (r: bool)
    ensures r <==> Denotes(s, Arabic) || Denotes(s, Chinese)
  {
    GetLanguageFromStringDenotes(s, Arabic);
    GetLanguageFromStringDenotes(s, Chinese);
    IsSegmenterLanguage(GetLanguageFromString(s))
  }

  // ---------------------------------------------------------------------
  // Reference table and properties

  /** The full name of each language, as the source spells it. */
  function Name(language: HumanLanguage): (r: string)
    ensures AllAsciiLower(r) && |r| > 2
  {
    match language
    case Arabic => "arabic"
    case Chinese => "chinese"
    case English => "english"
    case French => "french"
    case German => "german"
    case Spanish => "spanish"
  }

  /** The two-letter code of each language. */
  function Code(language: HumanLanguage): (r: string)
    ensures AllAsciiLower(r) && |r| == 2
  {
    match language
    case Arabic => "ar"
    case Chinese => "zh"
    case English => "en"
    case French => "fr"
    case German => "de"
    case Spanish => "es"
  }

  /** Whether `s` spells the name or the code of `language`, ignoring case. */
  predicate Denotes(s: string, language: HumanLanguage)
  {
    EqualsIgnoreCase(s, Name(language)) || EqualsIgnoreCase(s, Code(language))
  }

  /** Two characters that fold to the same ASCII letter at some position are
      told apart only by the letter: the folding classes are disjoint. */
  lemma FoldsToUnique(c: char, l1: char, l2: char)
    requires IsAsciiLower(l1) && IsAsciiLower(l2)
    requires FoldsTo(c, l1) && FoldsTo(c, l2)
    ensures l1 == l2
  {
  }

  /** Two lower-case words that the same string matches ignoring case are
      the same word: the folding classes are disjoint. */
  lemma MatchedWordUnique(s: string, w1: string, w2: string)
    requires AllAsciiLower(w1) && AllAsciiLower(w2)
    requires EqualsIgnoreCase(s, w1) && EqualsIgnoreCase(s, w2)
    ensures w1 == w2
  {
    forall k | 0 <= k < |s| ensures w1[k] == w2[k] {
      FoldsToUnique(s[k], w1[k], w2[k]);
    }
  }

  /** No string spells two different languages. */
  lemma DenotesUnique(s: string, l1: HumanLanguage, l2: HumanLanguage)
    requires Denotes(s, l1) && Denotes(s, l2)
    ensures l1 == l2
  {
    var w1 := if EqualsIgnoreCase(s, Name(l1)) then Name(l1) else Code(l1);
    var w2 := if EqualsIgnoreCase(s, Name(l2)) then Name(l2) else Code(l2);
    MatchedWordUnique(s, w1, w2);
    WordsOfLanguagesDistinct(l1, l2, w1, w2);
  }

  /** The names and codes of two different languages are different words. */
  lemma WordsOfLanguagesDistinct(l1: HumanLanguage, l2: HumanLanguage, w1: string, w2: string)
    requires w1 == Name(l1) || w1 == Code(l1)
    requires w2 == Name(l2) || w2 == Code(l2)
    requires w1 == w2
    ensures l1 == l2
  {
  }

  /** getLanguageFromString finds a language exactly when the input spells
      that language's name or code, in any letter case. */
  lemma {:induction false} GetLanguageFromStringDenotes(s: string, language: HumanLanguage)
    ensures GetLanguageFromString(s) == Some(language) <==> Denotes(s, language)
  {
    if Denotes(s, language) {
      var r := GetLanguageFromString(s);
      assert r.Some? && Denotes(s, r.value);
      DenotesUnique(s, r.value, language);
    }
  }

  /** Anything that spells no language maps to null. */
  lemma {:induction false} GetLanguageFromStringAbsent(s: string)
    ensures GetLanguageFromString(s) == None <==> forall l: HumanLanguage :: !Denotes(s, l)
  {
    match GetLanguageFromString(s)
    case Some(l) =>
      GetLanguageFromStringDenotes(s, l);
    case None =>
      forall l: HumanLanguage ensures !Denotes(s, l) {
        GetLanguageFromStringDenotes(s, l);
      }
  }

  /** Matching against a lower-case word depends on the input only through
      its ASCII lower-casing. */
  lemma EqualsIgnoreCaseRespectsLower(s: string, t: string, word: string)
    requires AllAsciiLower(word)
    requires LowerAscii(s) == LowerAscii(t)
    ensures EqualsIgnoreCase(s, word) <==> EqualsIgnoreCase(t, word)
  {
    assert |s| == |LowerAscii(s)| == |LowerAscii(t)| == |t|;
    if |s| == |word| {
      forall i | 0 <= i < |s| ensures FoldsTo(s[i], word[i]) <==> FoldsTo(t[i], word[i]) {
        assert LowerAscii(s)[i] == LowerAscii(t)[i];
      }
    }
  }

  /** The lookup ignores ASCII letter case: two inputs that agree after
      lower-casing map to the same language. */
  lemma {:induction false} GetLanguageFromStringIgnoresCase(s: string, t: string)
    requires LowerAscii(s) == LowerAscii(t)
    ensures GetLanguageFromString(s) == GetLanguageFromString(t)
  {
    forall l: HumanLanguage ensures Denotes(s, l) <==> Denotes(t, l) {
      EqualsIgnoreCaseRespectsLower(s, t, Name(l));
      EqualsIgnoreCaseRespectsLower(s, t, Code(l));
    }
    GetLanguageFromStringAbsent(s);
    GetLanguageFromStringAbsent(t);
    if GetLanguageFromString(s).Some? {
      var l := GetLanguageFromString(s).value;
      GetLanguageFromStringDenotes(s, l);
      GetLanguageFromStringDenotes(t, l);
    }
  }

  /** Each language's own name and code, written in any case, map to it. */
  lemma NameAndCodeMapBack(language: HumanLanguage, s: string)
    requires LowerAscii(s) == Name(language) || LowerAscii(s) == Code(language)
    ensures GetLanguageFromString(s) == Some(language)
  {
    var w := LowerAscii(s);
    assert LowerAscii(w) == w;
    GetLanguageFromStringIgnoresCase(s, w);
    GetLanguageFromStringDenotes(w, language);
  }

  /** The properties table gives each language its own file. */
  lemma PropertiesFileInjective(l1: HumanLanguage, l2: HumanLanguage)
    requires LanguageToPropertiesFile(l1) == LanguageToPropertiesFile(l2)
    ensures l1 == l2
  {
    if l1 != English && l2 != English {
      var m1, m2 := "-" + Name(l1), "-" + Name(l2);
      MiddleOfThree(PropertiesPrefix, m1, PropertiesSuffix);
      MiddleOfThree(PropertiesPrefix, m2, PropertiesSuffix);
      assert m1 == m2;
      assert m1[1..] == Name(l1) && m2[1..] == Name(l2);
      WordsOfLanguagesDistinct(l1, l2, Name(l1), Name(l2));
    }
  }

  /** The middle part of a three-part concatenation is recovered by slicing. */
  lemma MiddleOfThree(a: string, b: string, c: string)
    ensures (a + b + c)[|a|..|a| + |b|] == b
  {
  }





}
