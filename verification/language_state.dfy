/**
  The language state of the localisation layer: the current language
  (`currentLanguage`, src/i18n/index.ts:7) and the browser's key-value
  storage, both held in an explicit `State` record. `switchLanguage`
  (src/i18n/index.ts:202-205) toggles the language and records it under the
  preference key; `initLanguage` (src/i18n/index.ts:208-213) adopts a stored
  preference when it names a supported language.
 */
module LanguageState {
  import opened Optional
  import opened Translations
  import opened Lookup

  /** The storage key of the language preference. */
  const PreferenceKey := "language"

  /** The tag a language is stored under (src/i18n/index.ts:4). */
  function Tag(lang: Lang): string {
    match lang
    case Zh => "zh"
    case En => "en"
  }

  /** The language a stored string names, if it is one of the two supported tags (`['zh', 'en'].includes(savedLang)`). */
  function LangOfTag(s: string): (r: Option<Lang>)
    ensures r.Some? <==> s == "zh" || s == "en"
    ensures r.Some? ==> Tag(r.value) == s
  {
    if s == "zh" then Some(Zh)
    else if s == "en" then Some(En)
    else None
  }

  /** The current language and the contents of the browser's storage. */
  datatype State = State(current: Lang, store: map<string, string>)

  /** The state when the module is loaded: Chinese (src/i18n/index.ts:7), whatever the storage holds. */
  function Initial(store: map<string, string>): State {
    State(Zh, store)
  }

  /** `localStorage.getItem(key)`: the stored string, or nothing (`null`) for a key never set. */
  function GetItem(store: map<string, string>, key: string): (r: Option<string>)
    ensures r.None? <==> key !in store
    ensures r.Some? ==> store[key] == r.value
  {
    if key in store then Some(store[key]) else None
  }

  /** `localStorage.setItem` followed by `getItem`: the key reads back the value just set, and every other key reads as before. */
  lemma GetAfterSet(store: map<string, string>, key: string, value: string, other: string)
    ensures GetItem(store[key := value], key) == Some(value)
    ensures other != key ==> GetItem(store[key := value], other) == GetItem(store, other)
  {
  }

  /** The storage records the current language under the preference key. */
  predicate Synced(st: State) {
    PreferenceKey in st.store && st.store[PreferenceKey] == Tag(st.current)
  }

  /** Two stores that agree on every key except the preference key. */
  predicate AgreeElsewhere(a: map<string, string>, b: map<string, string>) {
    a - {PreferenceKey} == b - {PreferenceKey}
  }

  /* ---------------------------------------------------------------------- */
  /* switchLanguage                                                         */
  /* ---------------------------------------------------------------------- */

  /** `switchLanguage()`: the other language becomes current and is written to storage. */
  function SwitchLanguage(st: State): (st': State)
    ensures st'.current != st.current
    ensures Synced(st')
    ensures AgreeElsewhere(st'.store, st.store)
  {
    var next := if st.current == Zh then En else Zh;
    State(next, st.store[PreferenceKey := Tag(next)])
  }

  /** Switching twice restores the language; the storage then records it, and holds nothing else new. */
  lemma SwitchTwice(st: State)
    ensures SwitchLanguage(SwitchLanguage(st)).current == st.current
    ensures SwitchLanguage(SwitchLanguage(st)).store == st.store[PreferenceKey := Tag(st.current)]
    ensures SwitchLanguage(st).store[PreferenceKey] != Tag(st.current)
  {
  }

  /** On a synced state, switching twice is the identity. */
  lemma SwitchInvolution(st: State)
    requires Synced(st)
    ensures SwitchLanguage(SwitchLanguage(st)) == st
  {
    SwitchTwice(st);
    assert st.store[PreferenceKey := Tag(st.current)] == st.store;
  }

  /* ---------------------------------------------------------------------- */
  /* initLanguage                                                           */
  /* ---------------------------------------------------------------------- */

  /** `initLanguage()`: a stored preference that is a non-empty supported tag becomes current; anything else changes nothing. */
  function InitLanguage(st: State): (st': State)
    ensures st'.store == st.store
    ensures GetItem(st.store, PreferenceKey) == Some("zh") ==> st'.current == Zh
    ensures GetItem(st.store, PreferenceKey) == Some("en") ==> st'.current == En
    ensures GetItem(st.store, PreferenceKey) != Some("zh") && GetItem(st.store, PreferenceKey) != Some("en") ==> st' == st
  {
    match GetItem(st.store, PreferenceKey)
    case Some(saved) =>
      if saved != "" && LangOfTag(saved).Some? then st.(current := LangOfTag(saved).value) else st
    case None => st
  }

  /** Initialising twice is initialising once. */
  lemma InitIdempotent(st: State)
    ensures InitLanguage(InitLanguage(st)) == InitLanguage(st)
  {
  }

  /** On a synced state, initialising changes nothing. */
  lemma InitKeepsSynced(st: State)
    requires Synced(st)
    ensures InitLanguage(st) == st
  {
  }

  /** A preference written by a switch is adopted by the next page load, which starts again from Chinese. */
  lemma SwitchSurvivesReload(st: State)
    ensures InitLanguage(Initial(SwitchLanguage(st).store)) == SwitchLanguage(st)
  {
  }

  /** After a page load the language is the stored one exactly when the storage holds a supported tag. */
  lemma InitAdoptsSupportedTag(store: map<string, string>)
    ensures Synced(InitLanguage(Initial(store))) <==> PreferenceKey in store && LangOfTag(store[PreferenceKey]).Some?
  {
  }

  /* ---------------------------------------------------------------------- */
  /* Runs of both operations                                                */
  /* ---------------------------------------------------------------------- */

  /** The two operations a page can perform on the language state. */
  datatype Action = Switch | Init

  function Apply(st: State, a: Action): State {
    match a
    case Switch => SwitchLanguage(st)
    case Init => InitLanguage(st)
  }

  /** The state after the actions, performed from left to right. */
  function Run(st: State, actions: seq<Action>): State
    decreases |actions|
  {
    if |actions| == 0 then st else Run(Apply(st, actions[0]), actions[1..])
  }

  /** No run of the two operations writes any storage key but the preference key. */
  lemma {:induction false} RunTouchesOnlyPreference(st: State, actions: seq<Action>)
    ensures AgreeElsewhere(Run(st, actions).store, st.store)
    decreases |actions|
  {
    if |actions| > 0 {
      var next := Apply(st, actions[0]);
      RunTouchesOnlyPreference(next, actions[1..]);
    }
  }

  /** Once the storage records the current language, every later run keeps it that way. */
  lemma {:induction false} RunKeepsSynced(st: State, actions: seq<Action>)
    requires Synced(st)
    ensures Synced(Run(st, actions))
    decreases |actions|
  {
    if |actions| > 0 {
      var next := Apply(st, actions[0]);
      if actions[0] == Init {
        InitKeepsSynced(st);
      }
      RunKeepsSynced(next, actions[1..]);
    }
  }

  /** The current language after a run is determined by the number of switches since the last synced state. */
  lemma {:induction false} RunParity(st: State, actions: seq<Action>)
    requires Synced(st)
    ensures Run(st, actions).current == (if Switches(actions) % 2 == 0 then st.current else SwitchLanguage(st).current)
    decreases |actions|
  {
    if |actions| > 0 {
      var next := Apply(st, actions[0]);
      assert Switches(actions) == Switches(actions[1..]) + (if actions[0] == Switch then 1 else 0);
      if actions[0] == Init {
        InitKeepsSynced(st);
      } else {
        SwitchInvolution(st);
      }
      RunParity(next, actions[1..]);
    }
  }

  /** The number of switches among the actions. */
  function Switches(actions: seq<Action>): nat
    decreases |actions|
  {
    if |actions| == 0 then 0
    else (if actions[0] == Switch then 1 else 0) + Switches(actions[1..])
  }

  /* ---------------------------------------------------------------------- */
  /* An example session                                                     */
  /* ---------------------------------------------------------------------- */

  /** From a fresh page with empty storage, one switch gives English and stores `en`; a stored `fr` is ignored. */
  lemma SwitchExample()
    ensures SwitchLanguage(Initial(map[])).current == En
    ensures SwitchLanguage(Initial(map[])).store == map[PreferenceKey := "en"]
    ensures InitLanguage(Initial(map[PreferenceKey := "fr"])) == Initial(map[PreferenceKey := "fr"])
  {
  }

  /** After that first switch, `t("balance")` reads `Balance`. */
  lemma SwitchedBalanceExample()
    ensures T(SwitchLanguage(Initial(map[])).current, "balance") == "Balance"
  {
    assert SwitchLanguage(Initial(map[])).current == En;
    BalanceExamples();
  }
}
