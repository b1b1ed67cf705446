/**
  The two level-label helpers of the localisation layer:
  `getLevelOrdinal(level)` (src/i18n/index.ts:184-190), which reads a small
  per-language array of ordinal words and falls back to the generic word
  for a level followed by the number, and `getLevelDescription(level)`
  (src/i18n/index.ts:193-199), which appends a per-language suffix.
  Levels are integers; the decimal rendering of a template literal is
  `IntToString`.
 */
module Levels {
  import opened Strings
  import opened Translations
  import opened Lookup

  /** The ordinal array of a language (src/i18n/index.ts:185-188); slot 0 holds the empty string. */
  function Ordinals(lang: Lang): seq<string> {
    match lang
    case Zh => ["", "第一", "第二", "第三"]
    case En => ["", "First", "Second", "Third"]
  }

  /**
    The label of a level as the translated texts make it: the ordinal word
    of levels 1 to 3, and for every other level the generic word `level`
    of the table, a space and the decimal level.
   */
  function Label(lang: Lang, level: int): string {
    if 1 <= level <= 3 then Ordinals(lang)[level] else LevelWord(lang) + " " + IntToString(level)
  }

  /** The generic word of the fallback label: the table text of `level`. */
  function LevelWord(lang: Lang): string {
    if lang == Zh then "关卡" else "Level"
  }

  /** `` ordinals[lang][level] || `${t('level')} ${level}` ``: an array slot that is missing or empty is falsy. */
  function LevelOrdinal(lang: Lang, level: int): (r: string)
    ensures r == Label(lang, level)
  {
    LevelText(lang);
    var ords := Ordinals(lang);
    if 0 <= level < |ords| && ords[level] != "" then ords[level]
    else T(lang, "level") + " " + IntToString(level)
  }

  /** The suffix `getLevelDescription` appends: `关` with no space in Chinese, ` Level` in English. */
  function DescriptionSuffix(lang: Lang): string {
    match lang
    case Zh => "关"
    case En => " Level"
  }

  /** `getLevelDescription(level)`: the ordinal followed by the language's suffix. */
  function LevelDescription(lang: Lang, level: int): (r: string)
    ensures r == Label(lang, level) + DescriptionSuffix(lang)
  {
    if lang == Zh then LevelOrdinal(lang, level) + "关"
    else LevelOrdinal(lang, level) + " Level"
  }

  /** The table key naming the ordinal word of levels 1 to 3. */
  function OrdinalKey(level: int): string
    requires 1 <= level <= 3
  {
    ["first", "second", "third"][level - 1]
  }

  /* ---------------------------------------------------------------------- */
  /* getLevelOrdinal                                                        */
  /* ---------------------------------------------------------------------- */

  /** For levels 1 to 3 the ordinal array and the translation table agree: the ordinal is `t("first")`, `t("second")` or `t("third")`. */
  lemma OrdinalMatchesTable(lang: Lang, level: int)
    requires 1 <= level <= 3
    ensures LevelOrdinal(lang, level) == T(lang, OrdinalKey(level)) != ""
  {
    var key := OrdinalKey(level);
    assert key in Table(lang) && Table(lang)[key] == Ordinals(lang)[level] by {
      OrdinalTexts(lang);
    }
  }

  /** Every other level, 0 included since its slot is empty, falls back to the generic word, a space and the number. */
  lemma OrdinalFallback(lang: Lang, level: int)
    requires level <= 0 || level >= 4
    ensures LevelOrdinal(lang, level) == T(lang, "level") + " " + IntToString(level)
    ensures LevelOrdinal(lang, level) == LevelWord(lang) + " " + IntToString(level)
  {
    LevelText(lang);
  }

  /** Level 0 has an empty ordinal slot, so it takes the fallback label in both languages. */
  lemma LevelZeroExample(lang: Lang)
    ensures LevelOrdinal(lang, 0) == if lang == Zh then "关卡 0" else "Level 0"
  {
    assert IntToString(0) == "0";
  }

  /** Equal strings with the same prefix have the same remainder. */
  lemma SamePrefixCancels(p: string, a: string, b: string)
    requires p + a == p + b
    ensures a == b
  {
    assert a == (p + a)[|p|..];
    assert b == (p + b)[|p|..];
  }

  /** Distinct levels have distinct labels, in each language. */
  lemma LabelInjective(lang: Lang, a: int, b: int)
    requires Label(lang, a) == Label(lang, b)
    ensures a == b
  {
    var word := LevelWord(lang) + " ";
    if !(1 <= a <= 3) && !(1 <= b <= 3) {
      SamePrefixCancels(word, IntToString(a), IntToString(b));
      IntToStringInjective(a, b);
    }
  }

  /** Distinct levels get distinct ordinals, in each language. */
  lemma OrdinalInjective(lang: Lang, a: int, b: int)
    requires LevelOrdinal(lang, a) == LevelOrdinal(lang, b)
    ensures a == b
  {
    LabelInjective(lang, a, b);
  }

  /* ---------------------------------------------------------------------- */
  /* getLevelDescription                                                    */
  /* ---------------------------------------------------------------------- */

  /** A description is the ordinal followed by the language's suffix, so stripping the suffix gives the ordinal back. */
  lemma DescriptionStripsToOrdinal(lang: Lang, level: int)
    ensures |LevelDescription(lang, level)| == |LevelOrdinal(lang, level)| + |DescriptionSuffix(lang)|
    ensures LevelDescription(lang, level)[..|LevelOrdinal(lang, level)|] == LevelOrdinal(lang, level)
    ensures LevelDescription(lang, level)[|LevelOrdinal(lang, level)|..] == DescriptionSuffix(lang)
  {
  }

  /** Distinct levels get distinct descriptions, in each language. */
  lemma DescriptionInjective(lang: Lang, a: int, b: int)
    requires LevelDescription(lang, a) == LevelDescription(lang, b)
    ensures a == b
  {
    DescriptionStripsToOrdinal(lang, a);
    DescriptionStripsToOrdinal(lang, b);
    assert LevelOrdinal(lang, a) == LevelOrdinal(lang, b);
    OrdinalInjective(lang, a, b);
  }

  /** The description of the first level: no space before `关`, one space before `Level`. */
  lemma FirstLevelExample(lang: Lang)
    ensures LevelDescription(lang, 1) == if lang == Zh then "第一关" else "First Level"
  {
  }

  /** The description of level 0 keeps the generic word and adds the suffix after the number. */
  lemma LevelZeroDescriptionExample(lang: Lang)
    ensures LevelDescription(lang, 0) == if lang == Zh then "关卡 0关" else "Level 0 Level"
  {
    var expected := if lang == Zh then "关卡 0关" else "Level 0 Level";
    assert Label(lang, 0) + DescriptionSuffix(lang) == expected by {
      assert IntToString(0) == "0";
    }
  }
}
