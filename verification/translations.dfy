/**
  The two literal translation tables of the localisation layer
  (src/i18n/index.ts:10-169): one flat table per supported language, from a
  key to the string shown for it.

  Each table is written as its object literal's property list, in source
  order and cut into the sections the source's comments delimit, and is
  turned into a map the way an object literal is built: property by
  property, a later property of the same name overwriting an earlier one.
 */
module Translations {

  /** The two supported locales, tagged `zh` and `en` in the source (src/i18n/index.ts:4). */
  datatype Lang = Zh | En

  /** One property of a table: its name (the key) and its text. */
  type Entry = (string, string)

  /** Chinese section "game" (src/i18n/index.ts:12-21). */
  const ZhGame: seq<Entry> := [
    ("gameTitle", "BULL"),
    ("level", "关卡"),
    ("slot", "槽位"),
    ("walletConnected", "已连接"),
    ("walletDisconnected", "未连接"),
    ("removeThree", "移出三个"),
    ("back", "回退"),
    ("rewardRecord", "奖励记录"),
    ("connectWallet", "连接钱包")
  ]

  /** Chinese section "wallet" (src/i18n/index.ts:23-41). */
  const ZhWallet: seq<Entry> := [
    ("sparkWallet", "Spark钱包"),
    ("createWallet", "创建新钱包"),
    ("importWallet", "导入钱包"),
    ("createNewWallet", "创建或导入钱包来开始游戏"),
    ("generateWallet", "生成钱包"),
    ("generating", "生成中..."),
    ("importing", "导入中..."),
    ("saveMnemonic", "请安全保存您的助记词！"),
    ("copyMnemonic", "复制助记词"),
    ("saved", "我已保存"),
    ("cancel", "取消"),
    ("clickToGenerate", "点击下面按钮生成新的助记词"),
    ("mnemonicCopied", "助记词已复制到剪贴板"),
    ("addressCopied", "地址已复制到剪贴板"),
    ("generateFailed", "生成钱包失败，请重试"),
    ("importFailed", "导入钱包失败，请检查助记词是否正确"),
    ("balanceRefreshed", "余额已刷新"),
    ("refreshFailed", "刷新余额失败")
  ]

  /** Chinese section "import wallet" (src/i18n/index.ts:43-46). */
  const ZhImport: seq<Entry> := [
    ("importMnemonicLabel", "输入助记词（12个单词，用空格分隔）："),
    ("importMnemonicPlaceholder", "输入您的12个助记词，用空格分隔..."),
    ("importWalletBtn", "导入钱包")
  ]

  /** Chinese section "wallet info" (src/i18n/index.ts:48-55). */
  const ZhWalletInfo: seq<Entry> := [
    ("walletRewards", "Spark钱包奖励"),
    ("balance", "余额"),
    ("sats", "sats"),
    ("refresh", "刷新"),
    ("disconnect", "断开连接"),
    ("copy", "复制"),
    ("close", "关闭")
  ]

  /** Chinese section "rewards" (src/i18n/index.ts:57-69). */
  const ZhRewards: seq<Entry> := [
    ("congratulations", "恭喜通关！"),
    ("levelCompleted", "关完成"),
    ("needPay", "需要支付"),
    ("reward", "奖励"),
    ("receiveAddress", "收款地址"),
    ("confirmPayment", "确认支付"),
    ("processing", "处理中..."),
    ("paymentSuccess", "支付成功！奖励已发送"),
    ("paymentFailed", "支付失败，请重试"),
    ("totalReward", "总奖励"),
    ("noRewards", "暂无奖励记录"),
    ("completeGame", "完成游戏关卡即可获得BULL奖励！")
  ]

  /** Chinese section "game status" (src/i18n/index.ts:71-75). */
  const ZhStatus: seq<Entry> := [
    ("needConnectWallet", "需要连接钱包"),
    ("connectWalletFirst", "请先连接Spark钱包才能开始游戏"),
    ("gameOver", "槽位已满，再接再厉~"),
    ("winMessage", "成功加入兔圈~")
  ]

  /** Chinese section "numbers and ordinals" (src/i18n/index.ts:77-80). */
  const ZhOrdinals: seq<Entry> := [
    ("first", "第一"),
    ("second", "第二"),
    ("third", "第三")
  ]

  /** Chinese section "error messages" (src/i18n/index.ts:82-84). */
  const ZhErrors: seq<Entry> := [
    ("insufficientBalance", "余额不足。当前余额"),
    ("required", "需要")
  ]

  /** Chinese section "others" (src/i18n/index.ts:86-88). */
  const ZhOthers: seq<Entry> := [
    ("createBy", "Create By: summer-is-hot"),
    ("time", "时间")
  ]

  /** English section "game" (src/i18n/index.ts:91-100). */
  const EnGame: seq<Entry> := [
    ("gameTitle", "BULL"),
    ("level", "Level"),
    ("slot", "Slot"),
    ("walletConnected", "Connected"),
    ("walletDisconnected", "Disconnected"),
    ("removeThree", "Remove 3"),
    ("back", "Back"),
    ("rewardRecord", "Rewards"),
    ("connectWallet", "Connect Wallet")
  ]

  /** English section "wallet" (src/i18n/index.ts:102-120). */
  const EnWallet: seq<Entry> := [
    ("sparkWallet", "Spark Wallet"),
    ("createWallet", "Create New Wallet"),
    ("importWallet", "Import Wallet"),
    ("createNewWallet", "Create or import wallet to start playing"),
    ("generateWallet", "Generate Wallet"),
    ("generating", "Generating..."),
    ("importing", "Importing..."),
    ("saveMnemonic", "Please save your mnemonic phrase safely!"),
    ("copyMnemonic", "Copy Mnemonic"),
    ("saved", "I have saved"),
    ("cancel", "Cancel"),
    ("clickToGenerate", "Click the button below to generate new mnemonic"),
    ("mnemonicCopied", "Mnemonic copied to clipboard"),
    ("addressCopied", "Address copied to clipboard"),
    ("generateFailed", "Failed to generate wallet, please try again"),
    ("importFailed", "Failed to import wallet, please check your mnemonic"),
    ("balanceRefreshed", "Balance refreshed"),
    ("refreshFailed", "Failed to refresh balance")
  ]

  /** English section "import wallet" (src/i18n/index.ts:122-125). */
  const EnImport: seq<Entry> := [
    ("importMnemonicLabel", "Enter mnemonic (12 words separated by spaces):"),
    ("importMnemonicPlaceholder", "Enter your 12 mnemonic words separated by spaces..."),
    ("importWalletBtn", "Import Wallet")
  ]

  /** English section "wallet info" (src/i18n/index.ts:127-134). */
  const EnWalletInfo: seq<Entry> := [
    ("walletRewards", "Spark Wallet Rewards"),
    ("balance", "Balance"),
    ("sats", "sats"),
    ("refresh", "Refresh"),
    ("disconnect", "Disconnect"),
    ("copy", "Copy"),
    ("close", "Close")
  ]

  /** English section "rewards" (src/i18n/index.ts:136-148). */
  const EnRewards: seq<Entry> := [
    ("congratulations", "Congratulations!"),
    ("levelCompleted", "Level Completed"),
    ("needPay", "Payment Required"),
    ("reward", "Reward"),
    ("receiveAddress", "Receive Address"),
    ("confirmPayment", "Confirm Payment"),
    ("processing", "Processing..."),
    ("paymentSuccess", "Payment successful! Reward sent"),
    ("paymentFailed", "Payment failed, please try again"),
    ("totalReward", "Total Rewards"),
    ("noRewards", "No reward records"),
    ("completeGame", "Complete game levels to earn BULL rewards!")
  ]

  /** English section "game status" (src/i18n/index.ts:150-154). */
  const EnStatus: seq<Entry> := [
    ("needConnectWallet", "Connect Wallet Required"),
    ("connectWalletFirst", "Please connect Spark wallet to start playing"),
    ("gameOver", "Slots full, try again~"),
    ("winMessage", "Successfully joined the community~")
  ]

  /** English section "numbers and ordinals" (src/i18n/index.ts:156-159). */
  const EnOrdinals: seq<Entry> := [
    ("first", "First"),
    ("second", "Second"),
    ("third", "Third")
  ]

  /** English section "error messages" (src/i18n/index.ts:161-163). */
  const EnErrors: seq<Entry> := [
    ("insufficientBalance", "Insufficient balance. Current balance"),
    ("required", "required")
  ]

  /** English section "others" (src/i18n/index.ts:165-167). */
  const EnOthers: seq<Entry> := [
    ("createBy", "Create By: summer-is-hot"),
    ("time", "Time")
  ]

  /** The sections of a table, in source order. */
  function Sections(lang: Lang): (secs: seq<seq<Entry>>)
    ensures |secs| == SectionCount
  {
    match lang
    case Zh => [ZhGame, ZhWallet, ZhImport, ZhWalletInfo, ZhRewards, ZhStatus, ZhOrdinals, ZhErrors, ZhOthers]
    case En => [EnGame, EnWallet, EnImport, EnWalletInfo, EnRewards, EnStatus, EnOrdinals, EnErrors, EnOthers]
  }

  const SectionCount := 9

  /** The sections one after the other. */
  function Flatten(secs: seq<seq<Entry>>): seq<Entry>
    decreases |secs|
  {
    if |secs| == 0 then []
    else Flatten(secs[..|secs| - 1]) + secs[|secs| - 1]
  }

  /** The properties of a table's object literal, in source order (src/i18n/index.ts:11-89, 90-168). */
  function Entries(lang: Lang): seq<Entry> {
    Flatten(Sections(lang))
  }

  /** The object an object literal with these properties denotes. */
  function ToMap(entries: seq<Entry>): map<string, string>
    decreases |entries|
  {
    if |entries| == 0 then map[]
    else
      var last := entries[|entries| - 1];
      ToMap(entries[..|entries| - 1])[last.0 := last.1]
  }

  /** The table a language reads from (src/i18n/index.ts:10-169). */
  function Table(lang: Lang): map<string, string> {
    ToMap(Entries(lang))
  }

  /** The keys of a table are exactly the property names of its literal. */
  lemma TableKeys(lang: Lang)
    ensures Table(lang).Keys == Names(Entries(lang))
  {
    ToMapKeys(Entries(lang));
  }

  /** The names of a property list. */
  function Names(entries: seq<Entry>): set<string> {
    set i | 0 <= i < |entries| :: entries[i].0
  }

  /** Every name and every text is non-empty. */
  predicate NonEmpty(entries: seq<Entry>) {
    forall i :: 0 <= i < |entries| ==> entries[i].0 != "" && entries[i].1 != ""
  }

  /** No name contains the key-path separator. */
  predicate NamesAreSegments(entries: seq<Entry>) {
    forall i :: 0 <= i < |entries| ==> '.' !in entries[i].0
  }

  /** Two property lists name the same properties in the same order. */
  predicate SameNames(e1: seq<Entry>, e2: seq<Entry>) {
    && |e1| == |e2|
    && forall i :: 0 <= i < |e1| ==> e1[i].0 == e2[i].0
  }

  /** No property names the key. */
  predicate Lacks(entries: seq<Entry>, k: string) {
    forall i :: 0 <= i < |entries| ==> entries[i].0 != k
  }

  /** The property at index `i` is the last one naming its key. */
  predicate LastNaming(entries: seq<Entry>, i: int)
    requires 0 <= i < |entries|
  {
    forall j :: i < j < |entries| ==> entries[j].0 != entries[i].0
  }

  /* ---------------------------------------------------------------------- */
  /* Building a map from a property list                                    */
  /* ---------------------------------------------------------------------- */

  /** Every key of an object built from a property list is the name of one of its properties, holding that property's value. */
  lemma {:induction false} ToMapEntry(entries: seq<Entry>, k: string)
    requires k in ToMap(entries)
    ensures exists i :: 0 <= i < |entries| && entries[i] == (k, ToMap(entries)[k])
    decreases |entries|
  {
    var last := entries[|entries| - 1];
    var init := entries[..|entries| - 1];
    if k != last.0 {
      ToMapEntry(init, k);
      var i :| 0 <= i < |init| && init[i] == (k, ToMap(init)[k]);
      assert entries[i] == init[i];
    }
  }

  /** The keys of an object built from a property list are exactly the names of its properties. */
  lemma {:induction false} ToMapKeys(entries: seq<Entry>)
    ensures ToMap(entries).Keys == Names(entries)
    decreases |entries|
  {
    if |entries| > 0 {
      var init := entries[..|entries| - 1];
      ToMapKeys(init);
      assert Names(entries) == Names(init) + {entries[|entries| - 1].0} by {
        forall k | k in Names(entries) ensures k in Names(init) + {entries[|entries| - 1].0} {
          var i :| 0 <= i < |entries| && entries[i].0 == k;
          if i < |entries| - 1 {
            assert init[i] == entries[i];
          }
        }
        forall k | k in Names(init) ensures k in Names(entries) {
          var i :| 0 <= i < |init| && init[i].0 == k;
          assert entries[i] == init[i];
        }
      }
    }
  }

  /** A key that no property names is not a key of the object. */
  lemma ToMapLacks(entries: seq<Entry>, k: string)
    requires Lacks(entries, k)
    ensures k !in ToMap(entries)
  {
    if k in ToMap(entries) {
      ToMapEntry(entries, k);
    }
  }

  /** A property that is not overwritten later in the list gives its key its value. */
  lemma {:induction false} ToMapLast(entries: seq<Entry>, i: int)
    requires 0 <= i < |entries| && LastNaming(entries, i)
    ensures entries[i].0 in ToMap(entries)
    ensures ToMap(entries)[entries[i].0] == entries[i].1
    decreases |entries|
  {
    var init := entries[..|entries| - 1];
    if i < |entries| - 1 {
      assert entries[i] == init[i];
      forall j | i < j < |init| ensures init[j].0 != init[i].0 {
        assert init[j] == entries[j];
      }
      ToMapLast(init, i);
    }
  }

  /** Concatenating property lists is overriding the first object with the second. */
  lemma {:induction false} ToMapAppend(a: seq<Entry>, b: seq<Entry>)
    ensures ToMap(a + b) == ToMap(a) + ToMap(b)
    decreases |b|
  {
    if |b| > 0 {
      var last := b[|b| - 1];
      var b' := b[..|b| - 1];
      assert (a + b)[..|a + b| - 1] == a + b';
      assert (a + b)[|a + b| - 1] == last;
      ToMapAppend(a, b');
      var m, n := ToMap(a), ToMap(b');
      assert ToMap(a + b) == (m + n)[last.0 := last.1];
      assert (m + n)[last.0 := last.1] == m + n[last.0 := last.1];
    } else {
      assert a + b == a;
    }
  }

  /** Two property lists naming the same properties in the same order build objects with the same keys. */
  lemma {:induction false} ToMapSameKeys(e1: seq<Entry>, e2: seq<Entry>)
    requires SameNames(e1, e2)
    ensures ToMap(e1).Keys == ToMap(e2).Keys
    decreases |e1|
  {
    if |e1| > 0 {
      ToMapSameKeys(e1[..|e1| - 1], e2[..|e2| - 1]);
    }
  }

  /* ---------------------------------------------------------------------- */
  /* Facts about sectioned property lists                                   */
  /* ---------------------------------------------------------------------- */

  lemma {:induction false} FlattenKeepsNonEmpty(secs: seq<seq<Entry>>)
    requires forall s :: 0 <= s < |secs| ==> NonEmpty(secs[s])
    ensures NonEmpty(Flatten(secs))
    decreases |secs|
  {
    if |secs| > 0 {
      FlattenKeepsNonEmpty(secs[..|secs| - 1]);
    }
  }

  lemma {:induction false} FlattenKeepsSegments(secs: seq<seq<Entry>>)
    requires forall s :: 0 <= s < |secs| ==> NamesAreSegments(secs[s])
    ensures NamesAreSegments(Flatten(secs))
    decreases |secs|
  {
    if |secs| > 0 {
      FlattenKeepsSegments(secs[..|secs| - 1]);
    }
  }

  lemma {:induction false} FlattenSameNames(secs1: seq<seq<Entry>>, secs2: seq<seq<Entry>>)
    requires |secs1| == |secs2|
    requires forall s :: 0 <= s < |secs1| ==> SameNames(secs1[s], secs2[s])
    ensures SameNames(Flatten(secs1), Flatten(secs2))
    decreases |secs1|
  {
    if |secs1| > 0 {
      FlattenSameNames(secs1[..|secs1| - 1], secs2[..|secs2| - 1]);
    }
  }

  /** A key defined last in section `s`, and by no later section, has the text it is given there. */
  lemma {:induction false} ToMapFlatten(secs: seq<seq<Entry>>, s: int, i: int)
    requires 0 <= s < |secs| && 0 <= i < |secs[s]| && LastNaming(secs[s], i)
    requires forall t :: s < t < |secs| ==> Lacks(secs[t], secs[s][i].0)
    ensures secs[s][i].0 in ToMap(Flatten(secs))
    ensures ToMap(Flatten(secs))[secs[s][i].0] == secs[s][i].1
    decreases |secs|
  {
    var init, last := secs[..|secs| - 1], secs[|secs| - 1];
    ToMapAppend(Flatten(init), last);
    if s == |secs| - 1 {
      ToMapLast(last, i);
    } else {
      assert secs[s] == init[s];
      ToMapLacks(last, secs[s][i].0);
      ToMapFlatten(init, s, i);
    }
  }

  /* ---------------------------------------------------------------------- */
  /* The literals, one section at a time (which keeps each proof small)     */
  /* ---------------------------------------------------------------------- */

  lemma GameSectionNames()
    ensures NamesAreSegments(ZhGame)
  {
  }

  lemma GameSectionTexts()
    ensures SameNames(ZhGame, EnGame)
    ensures NonEmpty(ZhGame) && NonEmpty(EnGame)
  {
  }

  lemma WalletSectionNames()
    ensures NamesAreSegments(ZhWallet)
  {
  }

  lemma WalletSectionTexts()
    ensures SameNames(ZhWallet, EnWallet)
  {
  }

  lemma WalletSectionNonEmpty()
    ensures NonEmpty(ZhWallet) && NonEmpty(EnWallet)
  {
  }

  lemma ImportSectionNames()
    ensures NamesAreSegments(ZhImport)
  {
  }

  lemma ImportSectionTexts()
    ensures SameNames(ZhImport, EnImport)
    ensures NonEmpty(ZhImport) && NonEmpty(EnImport)
  {
  }

  lemma WalletInfoSectionNames()
    ensures NamesAreSegments(ZhWalletInfo)
  {
  }

  lemma WalletInfoSectionTexts()
    ensures SameNames(ZhWalletInfo, EnWalletInfo)
    ensures NonEmpty(ZhWalletInfo) && NonEmpty(EnWalletInfo)
  {
  }

  lemma RewardsSectionNames()
    ensures NamesAreSegments(ZhRewards)
  {
  }

  lemma RewardsSectionTexts()
    ensures SameNames(ZhRewards, EnRewards)
    ensures NonEmpty(ZhRewards) && NonEmpty(EnRewards)
  {
  }

  lemma StatusSectionNames()
    ensures NamesAreSegments(ZhStatus)
  {
  }

  lemma StatusSectionTexts()
    ensures SameNames(ZhStatus, EnStatus)
    ensures NonEmpty(ZhStatus) && NonEmpty(EnStatus)
  {
  }

  lemma OrdinalsSectionNames()
    ensures NamesAreSegments(ZhOrdinals)
  {
  }

  lemma OrdinalsSectionTexts()
    ensures SameNames(ZhOrdinals, EnOrdinals)
    ensures NonEmpty(ZhOrdinals) && NonEmpty(EnOrdinals)
  {
  }

  lemma ErrorsSectionNames()
    ensures NamesAreSegments(ZhErrors)
  {
  }

  lemma ErrorsSectionTexts()
    ensures SameNames(ZhErrors, EnErrors)
    ensures NonEmpty(ZhErrors) && NonEmpty(EnErrors)
  {
  }

  lemma OthersSectionNames()
    ensures NamesAreSegments(ZhOthers)
  {
  }

  lemma OthersSectionTexts()
    ensures SameNames(ZhOthers, EnOthers)
    ensures NonEmpty(ZhOthers) && NonEmpty(EnOthers)
  {
  }

  /** Every section of both tables: texts non-empty, names free of the separator, and the same names in the same order in both languages. */
  lemma SectionFacts()
    ensures forall s :: 0 <= s < SectionCount ==> SameNames(Sections(Zh)[s], Sections(En)[s])
    ensures forall s :: 0 <= s < SectionCount ==> NamesAreSegments(Sections(Zh)[s])
    ensures forall s :: 0 <= s < SectionCount ==> NonEmpty(Sections(Zh)[s]) && NonEmpty(Sections(En)[s])
  {
    GameSectionNames();
    GameSectionTexts();
    WalletSectionNames();
    WalletSectionTexts();
    WalletSectionNonEmpty();
    ImportSectionNames();
    ImportSectionTexts();
    WalletInfoSectionNames();
    WalletInfoSectionTexts();
    RewardsSectionNames();
    RewardsSectionTexts();
    StatusSectionNames();
    StatusSectionTexts();
    OrdinalsSectionNames();
    OrdinalsSectionTexts();
    ErrorsSectionNames();
    ErrorsSectionTexts();
    OthersSectionNames();
    OthersSectionTexts();
  }

  /* ---------------------------------------------------------------------- */
  /* Properties of the two tables                                           */
  /* ---------------------------------------------------------------------- */

  /** Both tables define exactly the same keys. */
  lemma SameKeys()
    ensures Table(Zh).Keys == Table(En).Keys
  {
    SectionFacts();
    FlattenSameNames(Sections(Zh), Sections(En));
    ToMapSameKeys(Entries(Zh), Entries(En));
  }

  /** Every value in either table is non-empty, so none of them falls back to its key. */
  lemma ValuesNonEmpty(lang: Lang, k: string)
    requires k in Table(lang)
    ensures Table(lang)[k] != ""
  {
    SectionFacts();
    FlattenKeepsNonEmpty(Sections(lang));
    ToMapEntry(Entries(lang), k);
  }

  /** Every key is non-empty and free of the path separator, so it is a single segment of a key path. */
  lemma KeysAreSingleSegments(lang: Lang, k: string)
    requires k in Table(lang)
    ensures k != "" && '.' !in k
  {
    SameKeys();
    SectionFacts();
    FlattenKeepsSegments(Sections(Zh));
    FlattenKeepsNonEmpty(Sections(Zh));
    ToMapEntry(Entries(Zh), k);
  }

  /** A key no later Chinese section names again is named by no later English section either. */
  lemma LaterSectionsLackInBoth(k: string, s: int)
    requires 0 <= s
    requires forall t :: s < t < SectionCount ==> Lacks(Sections(Zh)[t], k)
    ensures forall t :: s < t < SectionCount ==> Lacks(Sections(En)[t], k)
  {
    SectionFacts();
    forall t, i | s < t < SectionCount && 0 <= i < |Sections(En)[t]|
      ensures Sections(En)[t][i].0 != k
    {
      assert Sections(En)[t][i].0 == Sections(Zh)[t][i].0;
    }
  }

  /** The text of the `i`-th property of section `s`, when that property is the key's last definition. */
  lemma TextAt(lang: Lang, s: int, i: int)
    requires 0 <= s < SectionCount && 0 <= i < |Sections(lang)[s]| && LastNaming(Sections(lang)[s], i)
    requires forall t :: s < t < SectionCount ==> Lacks(Sections(Zh)[t], Sections(lang)[s][i].0)
    ensures Sections(lang)[s][i].0 in Table(lang)
    ensures Table(lang)[Sections(lang)[s][i].0] == Sections(lang)[s][i].1
  {
    LaterSectionsLackInBoth(Sections(lang)[s][i].0, s);
    ToMapFlatten(Sections(lang), s, i);
  }

  /** The generic word for a level, used by the ordinal fallback (src/i18n/index.ts:14, 93). */
  lemma LevelText(lang: Lang)
    ensures "level" in Table(lang) && Table(lang)["level"] == (if lang == Zh then "关卡" else "Level")
  {
    LevelNotRedefinedA();
    LevelNotRedefinedB();
    TextAt(lang, 0, 1);
  }

  /** The three ordinal words of the tables (src/i18n/index.ts:78-80, 157-159). */
  lemma OrdinalTexts(lang: Lang)
    ensures "first" in Table(lang) && Table(lang)["first"] == (if lang == Zh then "第一" else "First")
    ensures "second" in Table(lang) && Table(lang)["second"] == (if lang == Zh then "第二" else "Second")
    ensures "third" in Table(lang) && Table(lang)["third"] == (if lang == Zh then "第三" else "Third")
  {
    OrdinalsNotRedefined();
    TextAt(lang, 6, 0);
    TextAt(lang, 6, 1);
    TextAt(lang, 6, 2);
  }

  /** Two texts of the wallet information section (src/i18n/index.ts:50-51, 129-130); the word for satoshis is the same in both tables and equal to its own key. */
  lemma WalletInfoTexts(lang: Lang)
    ensures "balance" in Table(lang) && Table(lang)["balance"] == (if lang == Zh then "余额" else "Balance")
    ensures "sats" in Table(lang) && Table(lang)["sats"] == "sats"
  {
    WalletInfoNotRedefined();
    TextAt(lang, 3, 1);
    TextAt(lang, 3, 2);
  }

  /* Absence of a key from the sections after the one defining it. */

  lemma LevelNotRedefinedA()
    ensures Lacks(ZhWallet, "level") && Lacks(ZhImport, "level")
    ensures Lacks(ZhWalletInfo, "level") && Lacks(ZhRewards, "level")
  {
  }

  lemma LevelNotRedefinedB()
    ensures Lacks(ZhStatus, "level") && Lacks(ZhOrdinals, "level")
    ensures Lacks(ZhErrors, "level") && Lacks(ZhOthers, "level")
  {
  }

  lemma OrdinalsNotRedefined()
    ensures Lacks(ZhErrors, "first") && Lacks(ZhErrors, "second") && Lacks(ZhErrors, "third")
    ensures Lacks(ZhOthers, "first") && Lacks(ZhOthers, "second") && Lacks(ZhOthers, "third")
  {
  }

  lemma WalletInfoNotRedefined()
    ensures Lacks(ZhRewards, "balance") && Lacks(ZhRewards, "sats")
    ensures Lacks(ZhStatus, "balance") && Lacks(ZhStatus, "sats")
    ensures Lacks(ZhOrdinals, "balance") && Lacks(ZhOrdinals, "sats")
    ensures Lacks(ZhErrors, "balance") && Lacks(ZhErrors, "sats")
    ensures Lacks(ZhOthers, "balance") && Lacks(ZhOthers, "sats")
  {
  }
}
