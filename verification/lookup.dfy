/**
  The key lookup `t(key)` of the localisation layer (src/i18n/index.ts:172-181).

  The key is split on `.` and the active table is walked one segment at a
  time with optional chaining (`value?.[k]`); the walk's result is returned
  when it is truthy and the key itself otherwise. The values the walk can
  meet are modelled by `Value`: a string, or an object of named values (the
  tables themselves are objects whose properties are all strings).
 */
module Lookup {
  import opened Optional
  import opened Strings
  import opened Translations

  /** A value reachable from a translation table. */
  datatype Value = Str(s: string) | Obj(props: map<string, Value>)

  /** The separator of key paths. */
  const Separator := '.'

  /**
    One step `value?.[k]` of the walk: an undefined value stays undefined,
    an object yields its property or undefined, and a string yields
    undefined (indexing a string is left out of the model).
   */
  function Step(v: Option<Value>, k: string): (r: Option<Value>)
    ensures v.None? ==> r.None?
    ensures v.Some? && v.value.Str? ==> r.None?
    ensures r.Some? <==> v.Some? && v.value.Obj? && k in v.value.props
    ensures r.Some? ==> r.value == v.value.props[k]
  {
    match v
    case Some(Obj(props)) => if k in props then Some(props[k]) else None
    case _ => None
  }

  /** The walk from `v` along the segments of `path`, left to right. */
  function Walk(v: Option<Value>, path: seq<string>): (r: Option<Value>)
    ensures v.None? ==> r.None?
    ensures |path| >= 1 && v.Some? && v.value.Str? ==> r.None?
    decreases |path|
  {
    if |path| == 0 then v else Walk(Step(v, path[0]), path[1..])
  }

  /** The key resolves to a non-empty string from `root`. */
  predicate ResolvesIn(root: Value, key: string) {
    var v := Walk(Some(root), Split(key, Separator));
    v.Some? && v.value.Str? && v.value.s != ""
  }

  /** `value || key` after the walk: the resolved text, or the key when the walk ends on nothing, on an empty string, or on an object. */
  function Resolve(root: Value, key: string): (r: string)
    ensures ResolvesIn(root, key) ==> r != "" && Walk(Some(root), Split(key, Separator)) == Some(Str(r))
    ensures !ResolvesIn(root, key) ==> r == key
  {
    match Walk(Some(root), Split(key, Separator))
    case Some(Str(s)) => if s != "" then s else key
    case _ => key
  }

  /** The object a flat string table denotes. */
  function Flat(m: map<string, string>): Value {
    Obj(map k | k in m :: Str(m[k]))
  }

  /** The table object of a language (src/i18n/index.ts:174). */
  function Root(lang: Lang): Value {
    Flat(Table(lang))
  }

  /* ---------------------------------------------------------------------- */
  /* The walk                                                               */
  /* ---------------------------------------------------------------------- */

  /** Walking a path that is two paths one after the other is walking the first and then the second. */
  lemma {:induction false} WalkAppend(v: Option<Value>, p: seq<string>, q: seq<string>)
    ensures Walk(v, p + q) == Walk(Walk(v, p), q)
    decreases |p|
  {
    if |p| > 0 {
      assert (p + q)[1..] == p[1..] + q;
      WalkAppend(Step(v, p[0]), p[1..], q);
    } else {
      assert p + q == q;
    }
  }

  /** A walk that still has segments to go when it reaches a string finds nothing. */
  lemma WalkThroughString(s: string, path: seq<string>)
    requires |path| >= 1
    ensures Walk(Some(Str(s)), path) == None
  {
    assert Walk(None, path[1..]).None?;
  }

  /**
    Lookup in a flat table whose keys are single segments is plain map
    lookup: a key with a non-empty text gives that text, every other key
    (unknown, empty text, or a path of several segments) gives itself.
   */
  lemma FlatLookup(m: map<string, string>, key: string)
    requires forall k :: k in m ==> Separator !in k
    ensures Resolve(Flat(m), key) == (if key in m && m[key] != "" then m[key] else key)
    ensures ResolvesIn(Flat(m), key) <==> key in m && m[key] != ""
  {
    var parts := Split(key, Separator);
    var first := Step(Some(Flat(m)), parts[0]);
    assert Walk(Some(Flat(m)), parts) == Walk(first, parts[1..]);
    if |parts| == 1 {
      JoinSplit(key, Separator);
      assert parts[0] == key;
    } else {
      SplitSingle(key, Separator);
      assert key !in m;
      if first.Some? {
        WalkThroughString(first.value.s, parts[1..]);
      } else {
        assert Walk(None, parts[1..]).None?;
      }
    }
  }

  /* ---------------------------------------------------------------------- */
  /* The lookup of the active language                                      */
  /* ---------------------------------------------------------------------- */

  /** `t(key)` with `lang` the current language: the table's text for a key it defines, and the key itself for any other key. */
  function T(lang: Lang, key: string): (r: string)
    ensures key in Table(lang) ==> r == Table(lang)[key] && r != ""
    ensures key !in Table(lang) ==> r == key
  {
    ResolvesIffDefined(lang, key);
    Resolve(Root(lang), key)
  }

  lemma SingleSegmentKeys(lang: Lang)
    ensures forall k :: k in Table(lang) ==> Separator !in k
  {
    forall k | k in Table(lang) ensures Separator !in k {
      KeysAreSingleSegments(lang, k);
    }
  }

  /** A key resolves exactly when the active table defines it, and then to the table's text. */
  lemma ResolvesIffDefined(lang: Lang, key: string)
    ensures ResolvesIn(Root(lang), key) <==> key in Table(lang)
    ensures Resolve(Root(lang), key) == (if key in Table(lang) then Table(lang)[key] else key)
    ensures key in Table(lang) ==> Table(lang)[key] != ""
  {
    SingleSegmentKeys(lang);
    FlatLookup(Table(lang), key);
    if key in Table(lang) {
      ValuesNonEmpty(lang, key);
    }
  }

  /** A key resolves in one language exactly when it resolves in the other. */
  lemma ResolvesInBoth(key: string)
    ensures ResolvesIn(Root(Zh), key) <==> ResolvesIn(Root(En), key)
  {
    ResolvesIffDefined(Zh, key);
    ResolvesIffDefined(En, key);
    SameKeys();
    assert key in Table(Zh) <==> key in Table(En);
  }

  /** A key path of several segments never resolves: every table value is a string, and in this model a step on a string finds nothing. */
  lemma DottedKeyEchoes(lang: Lang, key: string)
    requires Separator in key
    ensures T(lang, key) == key
  {
    if key in Table(lang) {
      KeysAreSingleSegments(lang, key);
    }
  }

  /** The empty key is no key of either table, so it comes back unchanged. */
  lemma EmptyKeyEchoes(lang: Lang)
    ensures T(lang, "") == ""
  {
    if "" in Table(lang) {
      KeysAreSingleSegments(lang, "");
    }
  }

  /** `t("balance")` once the language is English, and `t("balance.x")`, whose first segment resolves to a string. */
  lemma BalanceExamples()
    ensures T(En, "balance") == "Balance"
    ensures T(Zh, "balance") == "余额"
    ensures T(En, "balance.x") == "balance.x"
  {
    WalletInfoTexts(En);
    WalletInfoTexts(Zh);
    DottedKeyEchoes(En, "balance.x");
  }

  /** A key the table defines can still come back equal to itself: the text for `sats` is `sats` in both languages. */
  lemma SatsTranslatesToItself(lang: Lang)
    ensures "sats" in Table(lang)
    ensures T(lang, "sats") == "sats"
  {
    WalletInfoTexts(lang);
  }

  /* ---------------------------------------------------------------------- */
  /* The loop as written                                                    */
  /* ---------------------------------------------------------------------- */

  /** `t(key)` as written (src/i18n/index.ts:172-181): the walk is a loop over the segments, one optional-chaining step each. */
  method Translate(lang: Lang, key: string) returns (r: string)
    ensures key in Table(lang) ==> r == Table(lang)[key] && r != ""
    ensures key !in Table(lang) ==> r == key
  {
    var keys := Split(key, Separator);
    var value := Some(Root(lang));
    for i := 0 to |keys|
      invariant Walk(value, keys[i..]) == Walk(Some(Root(lang)), keys)
    {
      assert keys[i..][1..] == keys[i + 1..];
      value := Step(value, keys[i]);
    }
    assert keys[|keys|..] == [];
    match value {
      case Some(Str(s)) =>
        r := if s != "" then s else key;
      case _ =>
        r := key;
    }
    ResolvesIffDefined(lang, key);
  }
}
