# Localisation layer of the BULL game, in Dafny

This project models the localisation module `src/i18n/index.ts` of the game
front end. The module has two literal translation tables, Chinese (`zh`) and
English (`en`). It provides:

- `t(key)`, a dot-path lookup into the table of the current language. When
  the lookup finds nothing truthy, it falls back to the key itself.
- `getLevelOrdinal(level)` and `getLevelDescription(level)`, which build
  level labels such as `第一关` and `Level 5 Level`.
- `switchLanguage()`, which toggles the current language and writes the new
  one to the browser's storage under the key `language`, and
  `initLanguage()`, which restores the language from there.

The files:

- `optional.dfy`: an optional value.
- `strings.dfy`: `split` on a one-character separator and its inverse, plus
  the decimal rendering of an integer below 2^53 in magnitude in a template
  literal, and its inverse.
- `translations.dfy`: the two tables, written as their object literals'
  property lists in source order. Each is turned into a map property by
  property, as a JavaScript object literal is.
- `lookup.dfy`: `t(key)`. There is a reference definition (a walk over a
  value tree) and the loop as written.
- `levels.dfy`: the two level-label helpers.
- `language_state.dfy`: the language and the storage as an explicit
  `State(current, store)` record. Both operations are pure functions on it.

The current language is a parameter, `lang`, of `T`, `LevelOrdinal` and
`LevelDescription`. The source reads it from the module-level reference
instead.

Three consequences of the code are worth knowing:

- `getLevelDescription` appends its suffix in both languages: `${ordinal}关`
  and `${ordinal} Level` (`Levels.DescriptionStripsToOrdinal`).
- `sats` translates to itself in both tables, so a defined key can come back
  equal to the key (`Lookup.SatsTranslatesToItself`).
- The empty key needs no guard: `"".split('.')` is `[""]`, neither table
  defines `""`, and the empty key comes back unchanged
  (`Lookup.EmptyKeyEchoes`).

## Model

| member | source | states |
|---|---|---|
| Translations.SameKeys | src/i18n/index.ts:10-169 | The Chinese and English tables define exactly the same set of keys. |
| Translations.TableKeys | src/i18n/index.ts:10-169 | The keys of a language's table are exactly the property names of its object literal. |
| Translations.ValuesNonEmpty | src/i18n/index.ts:10-169 | Every text in either table is a non-empty string. |
| Translations.KeysAreSingleSegments | src/i18n/index.ts:10-169 | Every key of either table is non-empty and contains no `.`, so both tables are flat. |
| Translations.LevelText | src/i18n/index.ts:14-93 | `level` is defined in both tables: `关卡` in Chinese (line 14) and `Level` in English (line 93). |
| Translations.OrdinalTexts | src/i18n/index.ts:78-159 | `first`, `second` and `third` are defined in both tables, with the Chinese (lines 78-80) and English (lines 157-159) ordinal words. |
| Translations.WalletInfoTexts | src/i18n/index.ts:50-130 | `balance` is `余额` (line 50) or `Balance` (line 129); `sats` is `sats` in both tables (lines 51 and 130). |
| Translations.ToMapAppend | src/i18n/index.ts:10-169 | Building an object from two property lists one after the other gives the first object overridden by the second. |
| Translations.ToMapLast | src/i18n/index.ts:10-169 | A property that no later property of the same name follows gives its text to the object. |
| Translations.ToMapSameKeys | src/i18n/index.ts:10-169 | Property lists with the same names in the same order build objects with the same keys. |
| Translations.ToMapKeys | src/i18n/index.ts:10-169 | The keys of an object built from any property list are exactly the names of its properties. |
| Strings.Split | src/i18n/index.ts:173 | `key.split('.')` yields at least one part, and no part contains the separator. |
| Strings.JoinSplit | src/i18n/index.ts:173 | Joining the parts of a split with the separator gives back the key. |
| Strings.SplitJoin | src/i18n/index.ts:173 | Splitting separator-free parts after joining them gives back the parts. |
| Strings.SplitSingle | src/i18n/index.ts:173 | A key is split into just itself exactly when it contains no `.`. |
| Strings.NatToString | src/i18n/index.ts:189 | A non-negative level renders as one or more decimal digits, with no leading zero, and is exactly `0` for level 0. |
| Strings.IntToString | src/i18n/index.ts:189 | `${level}` is one or more decimal digits, after a minus sign when the level is negative, and starts with `0` only for level 0, which is exactly `0`. |
| Strings.IntToStringRoundTrip | src/i18n/index.ts:189 | The decimal text of `${level}` parses back to the level. |
| Strings.IntToStringInjective | src/i18n/index.ts:189 | Two levels have the same decimal text exactly when they are equal. |
| Lookup.T | src/i18n/index.ts:172-181 | `t(key)` is the table's text for a key the current table defines, and a non-empty one; for any other key it is the key itself. |
| Lookup.Step | src/i18n/index.ts:177 | `value?.[k]` is undefined on undefined and on a string, and defined exactly when the value is an object with property `k`, which it then yields. |
| Lookup.Walk | src/i18n/index.ts:176-178 | Once the walk reaches `undefined`, optional chaining keeps it `undefined` to the end of the path; a walk that starts on a string with at least one segment left ends `undefined`. |
| Lookup.WalkAppend | src/i18n/index.ts:176-178 | Walking two paths one after the other is walking the first, then the second from where it ended. |
| Lookup.Resolve | src/i18n/index.ts:180 | `value \|\| key` is the non-empty string the walk ends on when the key resolves, and the key itself otherwise. |
| Lookup.Translate | src/i18n/index.ts:172-181 | The segment-by-segment loop as written returns the table's non-empty text for a key the current table defines, and the key itself for any other key. |
| Lookup.FlatLookup | src/i18n/index.ts:173-180 | In a flat table, the walk with `value \|\| key` is plain map lookup. A key with a non-empty text gives that text. An unknown key, a key with an empty text, and a dotted key give the key back. |
| Lookup.ResolvesIffDefined | src/i18n/index.ts:172-181 | A key resolves to a text exactly when the current table defines it. |
| Lookup.ResolvesInBoth | src/i18n/index.ts:172-181 | A key resolves in Chinese exactly when it resolves in English. |
| Lookup.DottedKeyEchoes | src/i18n/index.ts:173-180 | A key containing `.` always comes back unchanged: its first segment reaches a string or nothing, and a further step finds nothing. |
| Lookup.EmptyKeyEchoes | src/i18n/index.ts:172-181 | The empty key comes back as the empty string. |
| Lookup.BalanceExamples | src/i18n/index.ts:172-181 | `t("balance")` is `Balance` in English and `余额` in Chinese; `t("balance.x")` is `balance.x`. |
| Lookup.SatsTranslatesToItself | src/i18n/index.ts:51-130 | `sats` is a defined key whose translation equals the key, in Chinese (line 51) and English (line 130). |
| Levels.LevelOrdinal | src/i18n/index.ts:184-190 | The ordinal is the array's word for levels 1 to 3 and, for every other level, the table's word for `level` (`关卡` or `Level`), a space and the decimal level. |
| Levels.OrdinalMatchesTable | src/i18n/index.ts:184-190 | For levels 1 to 3 the ordinal equals the non-empty `t("first")`, `t("second")` or `t("third")` of the same language. |
| Levels.OrdinalFallback | src/i18n/index.ts:189 | Every other level, 0 and negatives included, gives `t("level")`, a space and the decimal level (`关卡 n` or `Level n`). |
| Levels.LevelZeroExample | src/i18n/index.ts:185-189 | Level 0 has an empty slot and so gives `关卡 0` or `Level 0`. |
| Levels.LabelInjective | src/i18n/index.ts:184-190 | Distinct levels have distinct labels, ordinal words and fallback labels alike, in each language. |
| Levels.OrdinalInjective | src/i18n/index.ts:184-190 | Distinct levels have distinct ordinals in each language. |
| Levels.LevelDescription | src/i18n/index.ts:193-199 | The description is the level's label followed by `关` with no space in Chinese, or by ` Level` in English. |
| Levels.DescriptionStripsToOrdinal | src/i18n/index.ts:193-199 | A description is the ordinal followed by the language's suffix: `关` with no space, or ` Level`. |
| Levels.DescriptionInjective | src/i18n/index.ts:193-199 | Distinct levels have distinct descriptions in each language. |
| Levels.FirstLevelExample | src/i18n/index.ts:193-199 | Level 1 is described as `第一关` or `First Level`. |
| Levels.LevelZeroDescriptionExample | src/i18n/index.ts:193-199 | Level 0 is described as `关卡 0关` or `Level 0 Level`. |
| LanguageState.LangOfTag | src/i18n/index.ts:210 | A string is accepted exactly when it is `zh` or `en`, and an accepted tag names the language it is stored for. |
| LanguageState.GetItem | src/i18n/index.ts:209 | `localStorage.getItem` is null exactly for a key never set, and otherwise the stored string. |
| LanguageState.GetAfterSet | src/i18n/index.ts:204 | After `setItem`, the key reads back the value just set and every other key reads as before. |
| LanguageState.SwitchLanguage | src/i18n/index.ts:202-205 | The language changes, the storage holds the new language's tag under `language`, and no other storage key changes. |
| LanguageState.SwitchTwice | src/i18n/index.ts:202-205 | Switching twice restores the language and leaves the storage with that language's tag. |
| LanguageState.SwitchInvolution | src/i18n/index.ts:202-205 | On a state whose storage already records its language, switching twice is the identity. |
| LanguageState.InitLanguage | src/i18n/index.ts:208-213 | The storage is never modified. A stored `zh` or `en` becomes the language; anything else (nothing stored, an empty string, any other text) changes nothing. |
| LanguageState.InitIdempotent | src/i18n/index.ts:208-213 | Initialising twice is the same as initialising once. |
| LanguageState.InitKeepsSynced | src/i18n/index.ts:208-213 | Initialising a state whose storage records its language changes nothing. |
| LanguageState.InitAdoptsSupportedTag | src/i18n/index.ts:208-213 | After a page load, the storage records the language exactly when it held a supported tag. |
| LanguageState.SwitchSurvivesReload | src/i18n/index.ts:202-213 | A language chosen by a switch is restored by the next page load, which starts again from Chinese. |
| LanguageState.RunTouchesOnlyPreference | src/i18n/index.ts:202-213 | No sequence of switches and initialisations changes any storage key other than `language`. |
| LanguageState.RunKeepsSynced | src/i18n/index.ts:202-213 | Once the storage records the language, every sequence of both operations keeps it so. |
| LanguageState.RunParity | src/i18n/index.ts:202-213 | From such a state, the language after a sequence depends only on whether the number of switches is even or odd. |
| LanguageState.SwitchExample | src/i18n/index.ts:202-213 | From a fresh page with empty storage, one switch gives English and stores `en`. A stored `fr` is ignored. |
| LanguageState.SwitchedBalanceExample | src/i18n/index.ts:172-205 | After one switch from a fresh page, `t("balance")` reads `Balance`. |

## Left out

- Vue reactivity is not modelled. `currentLanguage` is a plain field of `State`, and the language is passed to `T` and the level helpers as a parameter.
- The browser storage is a `map<string, string>` inside the state. Real storage I/O, quota failures and other tabs are not modelled.
- JavaScript prototype lookups are not modelled. Examples are `t("toString")` (inherited properties of a table object) and `t("balance.length")` (properties and character indices of a string). A walk step on a string finds nothing here. In JavaScript, such keys can yield a function, a number or a character.
- Lookup.Resolve: a walk that ends on an object returns the key, where JavaScript would return the object. Both tables are flat, so `t` never reaches this case (`Translations.KeysAreSingleSegments` and `Lookup.FlatLookup`).
- Levels are integers. Non-integer, `NaN` and infinite levels are not modelled, and neither is JavaScript's rendering of them.
- Strings.IntToString: prints every decimal digit of any integer. JavaScript renders integers of magnitude 10^21 or more in exponent form (`${1e21}` is `1e+21`), and a `number` holds integers above 2^53 only approximately; neither is modelled, since level numbers are small.
- `vite.config.ts` and `src/types/vue-global.d.ts` are build and type-declaration context and are not part of this model.
