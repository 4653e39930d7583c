/**
  The application page: the active tab, the mobile menu flag, the persisted history and
  global language, and one partial record of form state per tab.
 */
module AppPage {
  import opened Wrappers
  import opened UseTranslation

  /**
    A `Partial<TabState>`: each field may be absent. `error` is itself `string | null`,
    so `Some(None)` is an error field explicitly set to `null`.
   */
  datatype TabFields = TabFields(
    input: Option<string>,
    language: Option<string>,
    response: Option<string>,
    loading: Option<bool>,
    error: Option<Option<string>>)

  /** The spread of `undefined`: no fields at all. */
  const NoFields := TabFields(None, None, None, None, None)

  /** A full `TabState`: every field present. */
  predicate Complete(r: TabFields) {
    r.input.Some? && r.language.Some? && r.response.Some? && r.loading.Some? && r.error.Some?
  }

  /** `{ ...base, ...updates }`: a field present in `updates` wins, any other keeps its base value. */
  function Merge(base: TabFields, updates: TabFields): (r: TabFields)
    ensures updates.input.Some? ==> r.input == updates.input
    ensures updates.input.None? ==> r.input == base.input
    ensures updates.language.Some? ==> r.language == updates.language
    ensures updates.language.None? ==> r.language == base.language
    ensures updates.response.Some? ==> r.response == updates.response
    ensures updates.response.None? ==> r.response == base.response
    ensures updates.loading.Some? ==> r.loading == updates.loading
    ensures updates.loading.None? ==> r.loading == base.loading
    ensures updates.error.Some? ==> r.error == updates.error
    ensures updates.error.None? ==> r.error == base.error
  {
    TabFields(
      if updates.input.Some? then updates.input else base.input,
      if updates.language.Some? then updates.language else base.language,
      if updates.response.Some? then updates.response else base.response,
      if updates.loading.Some? then updates.loading else base.loading,
      if updates.error.Some? then updates.error else base.error)
  }

  /** Spreading a complete record and then a partial one leaves a complete record. */
  lemma MergeKeepsComplete(base: TabFields, updates: TabFields)
    requires Complete(base)
    ensures Complete(Merge(base, updates))
  {
  }

  /** Two successive spreads are one spread of the merged updates. */
  lemma MergeAssociative(base: TabFields, u: TabFields, v: TabFields)
    ensures Merge(Merge(base, u), v) == Merge(base, Merge(u, v))
  {
  }

  /** Spreading the same updates twice is spreading them once. */
  lemma MergeIdempotent(base: TabFields, u: TabFields)
    ensures Merge(Merge(base, u), u) == Merge(base, u)
  {
  }

  /** The three tabs the page keeps state for. */
  predicate IsKnownTab(tab: string) {
    tab == "dictionary" || tab == "analyse" || tab == "correction"
  }

  /** `{ ...initialTabState, language }`. */
  function InitialTabState(language: string): (r: TabFields)
    ensures Complete(r)
    ensures r.input == Some("") && r.response == Some("") && r.loading == Some(false)
    ensures r.error == Some(None) && r.language == Some(language)
  {
    TabFields(Some(""), Some(language), Some(""), Some(false), Some(None))
  }

  /** The first value of `tabStates`. */
  function InitialTabs(language: string): (tabs: map<string, TabFields>)
    ensures forall tab :: tab in tabs <==> IsKnownTab(tab)
    ensures forall tab :: tab in tabs ==> tabs[tab] == InitialTabState(language)
  {
    map["dictionary" := InitialTabState(language),
        "analyse" := InitialTabState(language),
        "correction" := InitialTabState(language)]
  }

  /** `prev[tab]`, spread: a tab without an entry contributes no fields. */
  function Lookup(states: map<string, TabFields>, tab: string): TabFields {
    if tab in states then states[tab] else NoFields
  }

  /** `if (updates.language)`: present and non-empty. */
  predicate SyncsLanguage(updates: TabFields) {
    updates.language.Some? && updates.language.value != ""
  }

  /** Every tab with its `language` replaced. */
  function WithLanguage(states: map<string, TabFields>, language: string): map<string, TabFields> {
    map tab | tab in states :: states[tab].(language := Some(language))
  }

  /** The `tabStates` that `updateTabState(tab, updates)` leaves: the merge, then the language sync. */
  function UpdatedTabs(states: map<string, TabFields>, tab: string, updates: TabFields): map<string, TabFields> {
    var merged := states[tab := Merge(Lookup(states, tab), updates)];
    if SyncsLanguage(updates) then WithLanguage(merged, updates.language.value) else merged
  }

  /** The update adds `tab` and keeps every other key. */
  lemma UpdatedTabsKeys(states: map<string, TabFields>, tab: string, updates: TabFields)
    ensures UpdatedTabs(states, tab, updates).Keys == states.Keys + {tab}
  {
  }

  /** The updated tab holds exactly its old fields overwritten by the present updates. */
  lemma UpdatedTabsTarget(states: map<string, TabFields>, tab: string, updates: TabFields)
    ensures tab in UpdatedTabs(states, tab, updates)
    ensures UpdatedTabs(states, tab, updates)[tab] == Merge(Lookup(states, tab), updates)
  {
    var merged := states[tab := Merge(Lookup(states, tab), updates)];
    if SyncsLanguage(updates) {
      assert WithLanguage(merged, updates.language.value)[tab] == merged[tab].(language := updates.language);
    }
  }

  /**
    Any other tab is untouched unless the update carries a non-empty language, in which
    case only its `language` changes, to that language.
   */
  lemma UpdatedTabsOthers(states: map<string, TabFields>, tab: string, updates: TabFields, other: string)
    requires other in states && other != tab
    ensures other in UpdatedTabs(states, tab, updates)
    ensures !SyncsLanguage(updates) ==> UpdatedTabs(states, tab, updates)[other] == states[other]
    ensures SyncsLanguage(updates) ==>
      UpdatedTabs(states, tab, updates)[other] == states[other].(language := updates.language)
  {
  }

  /** After a non-empty language update every tab shows that language. */
  lemma UpdatedTabsShareLanguage(states: map<string, TabFields>, tab: string, updates: TabFields, other: string)
    requires SyncsLanguage(updates) && other in UpdatedTabs(states, tab, updates)
    ensures UpdatedTabs(states, tab, updates)[other].language == updates.language
  {
  }

  /** A tab with no entry (the sidebar's `translate`) receives only the fields of the update. */
  lemma UnknownTabGetsOnlyUpdates(states: map<string, TabFields>, tab: string, updates: TabFields)
    requires tab !in states
    ensures UpdatedTabs(states, tab, updates)[tab] == updates
  {
    UpdatedTabsTarget(states, tab, updates);
  }

  /** At most this many history entries are kept. */
  const HistoryLimit: nat := 50

  /** A saved query and its answer (`id` and `timestamp` are not modelled). */
  datatype HistoryItem = HistoryItem(kind: string, query: string, response: string, language: string)

  function Min(a: int, b: int): int {
    if a <= b then a else b
  }

  /** `[item, ...prev.slice(0, 49)]`. */
  function PrependCapped(prev: seq<HistoryItem>, item: HistoryItem): (history: seq<HistoryItem>)
    ensures |history| == Min(|prev| + 1, HistoryLimit)
    ensures history[0] == item
    ensures history[1..] == prev[..|history| - 1]
  {
    [item] + prev[..Min(HistoryLimit - 1, |prev|)]
  }

  /** The first `n` elements, or all of them when there are fewer. */
  function Take<T>(s: seq<T>, n: nat): seq<T> {
    s[..Min(n, |s|)]
  }

  function Reversed<T>(s: seq<T>): seq<T> {
    if s == [] then [] else Reversed(s[1..]) + [s[0]]
  }

  /** The history after adding `items` in order, one call per item. */
  function AddAll(history: seq<HistoryItem>, items: seq<HistoryItem>): seq<HistoryItem>
    decreases |items|
  {
    if items == [] then history else AddAll(PrependCapped(history, items[0]), items[1..])
  }

  lemma {:induction false} TakeOfTake<T>(a: seq<T>, b: seq<T>, n: nat)
    ensures Take(a + Take(b, n), n) == Take(a + b, n)
  {
    var k := Min(n, |b|);
    if |a| >= n {
      assert (a + Take(b, n))[..n] == a[..n] == (a + b)[..n];
    } else {
      assert (a + b[..k])[..Min(n, |a| + k)] == (a + b)[..Min(n, |a| + |b|)];
    }
  }

  /**
    Newest first, capped at 50: after any sequence of additions the history is the
    additions in reverse order followed by the old entries, cut to 50.
   */
  lemma {:induction false} AddAllKeepsLatest(history: seq<HistoryItem>, items: seq<HistoryItem>)
    requires items != [] || |history| <= HistoryLimit
    ensures AddAll(history, items) == Take(Reversed(items) + history, HistoryLimit)
    decreases |items|
  {
    if items == [] {
      assert Reversed(items) + history == history;
    } else {
      var next := PrependCapped(history, items[0]);
      AddAllKeepsLatest(next, items[1..]);
      assert next == Take([items[0]] + history, HistoryLimit);
      TakeOfTake(Reversed(items[1..]), [items[0]] + history, HistoryLimit);
      assert Reversed(items[1..]) + ([items[0]] + history) == Reversed(items) + history;
    }
  }

  /** `tab.charAt(0).toUpperCase() + tab.slice(1)`, upper-casing ASCII letters only. */
  function Capitalize(tab: string): (title: string)
    ensures |title| == |tab|
    ensures tab != [] ==> title[0] == UpperAscii(tab[0]) && title[1..] == tab[1..]
  {
    if tab == [] then [] else [UpperAscii(tab[0])] + tab[1..]
  }

  function UpperAscii(c: char): char {
    if 'a' <= c <= 'z' then (c as int - 32) as char else c
  }

  /** Capitalising twice changes nothing more. */
  lemma CapitalizeIdempotent(tab: string)
    ensures Capitalize(Capitalize(tab)) == Capitalize(tab)
  {
  }

  /** The page heading: the known tabs' own translation keys, otherwise the capitalised id. */
  function GetTabTitle(tab: string, t: string -> string): (title: string)
    ensures IsKnownTab(tab) ==> title == t(tab)
    ensures !IsKnownTab(tab) ==> title == Capitalize(tab)
  {
    match tab
    case "dictionary" => t("dictionary")
    case "analyse" => t("analyse")
    case "correction" => t("correction")
    case _ => Capitalize(tab)
  }

  /** The page description: the known tabs' `...Description` keys, otherwise `''`. */
  function GetTabDescription(tab: string, t: string -> string): (description: string)
    ensures IsKnownTab(tab) ==> description == t(tab + "Description")
    ensures !IsKnownTab(tab) ==> description == ""
  {
    match tab
    case "dictionary" => assert "dictionary" + "Description" == "dictionaryDescription"; t("dictionaryDescription")
    case "analyse" => assert "analyse" + "Description" == "analyseDescription"; t("analyseDescription")
    case "correction" => assert "correction" + "Description" == "correctionDescription"; t("correctionDescription")
    case _ => ""
  }

  /** The sidebar's `translate` tab is titled by its own capitalised id. */
  lemma TranslateTabTitle(t: string -> string)
    ensures GetTabTitle("translate", t) == "Translate"
    ensures GetTabDescription("translate", t) == ""
  {
  }

  /** With the hook's `t`, the heading is empty only for the empty tab id. */
  lemma TitleEmptyOnlyForEmptyTab(tr: Translations, language: string, tab: string)
    ensures GetTabTitle(tab, Translator(tr, language)) == "" <==> tab == ""
  {
    if IsKnownTab(tab) {
      NeverEmpty(tr, language, tab);
    }
  }

  /** With the hook's `t`, the description is empty exactly for the tabs the page does not know. */
  lemma DescriptionEmptyIffUnknown(tr: Translations, language: string, tab: string)
    ensures GetTabDescription(tab, Translator(tr, language)) == "" <==> !IsKnownTab(tab)
  {
    if IsKnownTab(tab) {
      NeverEmpty(tr, language, tab + "Description");
    }
  }

  /**
    `updates.language!` written into every key of `Object.keys(newStates)`, one key
    per iteration of the `forEach`.
   */
  method SetLanguageOnAll(states: map<string, TabFields>, language: string) returns (r: map<string, TabFields>)
    ensures r.Keys == states.Keys
    ensures forall tab :: tab in r ==> r[tab] == states[tab].(language := Some(language))
  {
    r := states;
    var pending := states.Keys;
    while pending != {}
      invariant pending <= states.Keys && r.Keys == states.Keys
      invariant forall tab :: tab in pending ==> r[tab] == states[tab]
      invariant forall tab :: tab in states && tab !in pending ==> r[tab] == states[tab].(language := Some(language))
      decreases pending
    {
      var tab :| tab in pending;
      r := r[tab := r[tab].(language := Some(language))];
      pending := pending - {tab};
    }
  }

  /** The state of `AppPage`. `history` and `globalLanguage` are the two persisted cells. */
  class App {
    var activeTab: string
    var mobileMenuOpen: bool
    var history: seq<HistoryItem>
    var globalLanguage: string
    var tabStates: map<string, TabFields>

    /** The three known tabs always have a complete record. */
    ghost predicate Valid()
      reads this
    {
      forall tab :: IsKnownTab(tab) ==> tab in tabStates && Complete(tabStates[tab])
    }

    /** The first render, given what local storage holds for the history and the language. */
    constructor (storedHistory: seq<HistoryItem>, storedLanguage: string)
      ensures activeTab == "dictionary" && !mobileMenuOpen
      ensures history == storedHistory && globalLanguage == storedLanguage
      ensures tabStates == InitialTabs(storedLanguage)
      ensures Valid()
    {
      activeTab := "dictionary";
      mobileMenuOpen := false;
      history := storedHistory;
      globalLanguage := storedLanguage;
      tabStates := InitialTabs(storedLanguage);
    }

    /** `onTabChange`: the sidebar selects a tab. */
    method SetActiveTab(tab: string)
      modifies this`activeTab
      ensures activeTab == tab
    {
      activeTab := tab;
    }

    method HandleAddToHistory(item: HistoryItem)
      modifies this`history
      ensures history == PrependCapped(old(history), item)
    {
      history := PrependCapped(history, item);
    }

    method ToggleMobileMenu()
      modifies this`mobileMenuOpen
      ensures mobileMenuOpen == !old(mobileMenuOpen)
    {
      mobileMenuOpen := !mobileMenuOpen;
    }

    /**
      `updateTabState(tab, updates)`: merge into `tab`; a non-empty language also becomes
      the global language and the language of every tab.
     */
    method UpdateTabState(tab: string, updates: TabFields)
      modifies this`tabStates, this`globalLanguage
      ensures tabStates == UpdatedTabs(old(tabStates), tab, updates)
      ensures globalLanguage == if SyncsLanguage(updates) then updates.language.value else old(globalLanguage)
      ensures old(Valid()) ==> Valid()
    {
      tabStates := tabStates[tab := Merge(Lookup(tabStates, tab), updates)];
      if SyncsLanguage(updates) {
        globalLanguage := updates.language.value;
        tabStates := SetLanguageOnAll(tabStates, updates.language.value);
      }
      assert old(Valid()) ==> Valid() by {
        if old(Valid()) {
          forall known | IsKnownTab(known)
            ensures known in tabStates && Complete(tabStates[known])
          {
            if known == tab {
              MergeKeepsComplete(old(tabStates)[tab], updates);
              UpdatedTabsTarget(old(tabStates), tab, updates);
            } else {
              UpdatedTabsOthers(old(tabStates), tab, updates, known);
            }
          }
        }
      }
    }
  }
}
