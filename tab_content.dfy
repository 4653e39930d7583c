/**
  One tab's form and answer: the submit sequence (loading, then the answer or the
  error, then the history entry), the dictionary answer's layout and the form settings
  per tab. The state it changes is the page's, through `onUpdateTabState` and
  `onAddToHistory`; the endpoints' answers are inputs.
 */
module TabContent {
  import opened Wrappers
  import opened UseTranslation
  import opened AppPage
  import opened InputForm

  /** A thrown value: an `Error` with its message, or anything else. */
  datatype Thrown = ErrorValue(message: string) | OtherValue

  /** `err instanceof Error ? err.message : 'An error occurred'`. */
  function ErrorMessage(err: Thrown): (message: string)
    ensures err.ErrorValue? ==> message == err.message
    ensures err.OtherValue? ==> message == "An error occurred"
  {
    match err
    case ErrorValue(m) => m
    case OtherValue => "An error occurred"
  }

  /** The three word endpoints' answers, as `Promise.all` delivers them. */
  datatype WordReplies = WordReplies(definition: string, synonyms: string, history: string)

  /**
    What each endpoint answers for the submitted input and language: its text, or what
    it throws. For the dictionary, a rejection of any of the three is a rejection of all.
   */
  datatype Replies = Replies(
    word: Result<WordReplies, Thrown>,
    explain: Result<string, Thrown>,
    correct: Result<string, Thrown>)

  const DefinitionHeading := "## Definition\n\n"
  const SynonymsHeading := "\n\n## Synonyms\n\n"
  const HistoryHeading := "\n\n## Word History\n\n"

  /** The dictionary answer: three level-2 sections, in this order, with the replies verbatim. */
  function DictionaryMarkdown(w: WordReplies): (markdown: string)
    ensures var d := |DefinitionHeading|;
            var s := d + |w.definition| + |SynonymsHeading|;
            var h := s + |w.synonyms| + |HistoryHeading|;
            && |markdown| == h + |w.history|
            && markdown[..d] == DefinitionHeading
            && markdown[d..d + |w.definition|] == w.definition
            && markdown[d + |w.definition|..s] == SynonymsHeading
            && markdown[s..s + |w.synonyms|] == w.synonyms
            && markdown[s + |w.synonyms|..h] == HistoryHeading
            && markdown[h..] == w.history
  {
    DefinitionHeading + w.definition + SynonymsHeading + w.synonyms + HistoryHeading + w.history
  }

  /** The `try` block's `result`, or what it throws. */
  function TabResult(tab: string, replies: Replies): (outcome: Result<string, Thrown>)
    ensures tab == "dictionary" ==>
      outcome == if replies.word.Success? then Success(DictionaryMarkdown(replies.word.value))
                 else Failure(replies.word.error)
    ensures tab == "analyse" ==> outcome == replies.explain
    ensures tab == "correction" ==> outcome == replies.correct
    ensures !IsKnownTab(tab) ==> outcome == Failure(ErrorValue("Invalid tab"))
  {
    match tab
    case "dictionary" =>
      if replies.word.Success? then Success(DictionaryMarkdown(replies.word.value))
      else Failure(replies.word.error)
    case "analyse" => replies.explain
    case "correction" => replies.correct
    case _ => Failure(ErrorValue("Invalid tab"))
  }

  /** Only the three known tabs can produce an answer, and an unknown one always reports `Invalid tab`. */
  lemma OnlyKnownTabsSucceed(tab: string, replies: Replies)
    ensures TabResult(tab, replies).Success? ==> IsKnownTab(tab)
    ensures !IsKnownTab(tab) ==> ErrorMessage(TabResult(tab, replies).error) == "Invalid tab"
  {
  }

  /** The first update of `handleSubmit`. */
  function StartPatch(input: string, language: string): TabFields {
    TabFields(Some(input), Some(language), Some(""), Some(true), Some(None))
  }

  /** The update after an answer. */
  function SuccessPatch(result: string): TabFields {
    TabFields(None, None, Some(result), Some(false), None)
  }

  /** The update after a throw. */
  function FailurePatch(message: string): TabFields {
    TabFields(None, None, None, Some(false), Some(Some(message)))
  }

  /** The history entry for an answer (its `id` and `timestamp` are not modelled). */
  function EntryFor(tab: string, input: string, language: string, result: string): (item: HistoryItem)
    ensures item.kind == tab && item.query == input && item.response == result && item.language == language
  {
    HistoryItem(tab, input, result, language)
  }

  /** `handleSubmit` up to its `await`: the tab shows loading, no error and no answer. */
  method StartSubmit(app: App, tab: string, input: string, language: string)
    requires app.Valid()
    modifies app`tabStates, app`globalLanguage
    ensures app.Valid()
    ensures app.tabStates == UpdatedTabs(old(app.tabStates), tab, StartPatch(input, language))
    ensures tab in app.tabStates
    ensures app.tabStates[tab] == StartPatch(input, language)
    ensures app.globalLanguage == if language != "" then language else old(app.globalLanguage)
  {
    app.UpdateTabState(tab, StartPatch(input, language));
    UpdatedTabsTarget(old(app.tabStates), tab, StartPatch(input, language));
  }

  /**
    `handleSubmit` after its `await`: an answer is stored and added to the history once;
    a throw stores its message and adds nothing.
   */
  method FinishSubmit(app: App, tab: string, input: string, language: string, outcome: Result<string, Thrown>)
    requires app.Valid()
    modifies app`tabStates, app`globalLanguage, app`history
    ensures app.Valid()
    ensures app.globalLanguage == old(app.globalLanguage)
    ensures outcome.Success? ==>
      && app.tabStates == UpdatedTabs(old(app.tabStates), tab, SuccessPatch(outcome.value))
      && app.history == PrependCapped(old(app.history), EntryFor(tab, input, language, outcome.value))
    ensures outcome.Failure? ==>
      && app.tabStates == UpdatedTabs(old(app.tabStates), tab, FailurePatch(ErrorMessage(outcome.error)))
      && app.history == old(app.history)
  {
    match outcome
    case Success(result) =>
      app.UpdateTabState(tab, SuccessPatch(result));
      app.HandleAddToHistory(EntryFor(tab, input, language, result));
    case Failure(err) =>
      app.UpdateTabState(tab, FailurePatch(ErrorMessage(err)));
  }

  /** `handleSubmit` from start to end, with the endpoints answering `replies`. */
  method Submit(app: App, tab: string, input: string, language: string, replies: Replies)
    requires app.Valid()
    modifies app`tabStates, app`globalLanguage, app`history
    ensures app.Valid()
    ensures tab in app.tabStates
    ensures TabResult(tab, replies).Success? ==>
      && app.tabStates[tab] == TabFields(Some(input), Some(language),
           Some(TabResult(tab, replies).value), Some(false), Some(None))
      && app.history == PrependCapped(old(app.history), EntryFor(tab, input, language, TabResult(tab, replies).value))
    ensures TabResult(tab, replies).Failure? ==>
      && app.tabStates[tab] == TabFields(Some(input), Some(language),
           Some(""), Some(false), Some(Some(ErrorMessage(TabResult(tab, replies).error))))
      && app.history == old(app.history)
    ensures forall other :: other in old(app.tabStates) && other != tab ==>
      other in app.tabStates &&
      app.tabStates[other] == if language != "" then old(app.tabStates[other]).(language := Some(language))
                              else old(app.tabStates[other])
    ensures app.tabStates.Keys == old(app.tabStates).Keys + {tab}
    ensures language != "" ==> app.globalLanguage == language
    ensures language == "" ==> app.globalLanguage == old(app.globalLanguage)
  {
    StartSubmit(app, tab, input, language);
    ghost var started := app.tabStates;
    var outcome := TabResult(tab, replies);
    FinishSubmit(app, tab, input, language, outcome);
    UpdatedTabsKeys(old(app.tabStates), tab, StartPatch(input, language));
    match outcome
    case Success(result) =>
      UpdatedTabsTarget(started, tab, SuccessPatch(result));
      UpdatedTabsKeys(started, tab, SuccessPatch(result));
    case Failure(err) =>
      UpdatedTabsTarget(started, tab, FailurePatch(ErrorMessage(err)));
      UpdatedTabsKeys(started, tab, FailurePatch(ErrorMessage(err)));
    forall other | other in old(app.tabStates) && other != tab
      ensures other in app.tabStates
      ensures app.tabStates[other] == if language != "" then old(app.tabStates[other]).(language := Some(language))
                                      else old(app.tabStates[other])
    {
      UpdatedTabsOthers(old(app.tabStates), tab, StartPatch(input, language), other);
      match outcome
      case Success(result) =>
        UpdatedTabsOthers(started, tab, SuccessPatch(result), other);
      case Failure(err) =>
        UpdatedTabsOthers(started, tab, FailurePatch(ErrorMessage(err)), other);
    }
  }

  /** The sidebar's `translate` tab: the submit always ends in `Invalid tab` and records nothing. */
  lemma TranslateTabSubmitFails(replies: Replies)
    ensures TabResult("translate", replies) == Failure(ErrorValue("Invalid tab"))
  {
  }

  /** `onInputChange`: the typed text becomes the tab's input. */
  method OnInputChange(app: App, tab: string, input: string)
    requires app.Valid()
    modifies app`tabStates, app`globalLanguage
    ensures app.Valid()
    ensures app.tabStates == UpdatedTabs(old(app.tabStates), tab, TabFields(Some(input), None, None, None, None))
    ensures app.globalLanguage == old(app.globalLanguage)
  {
    app.UpdateTabState(tab, TabFields(Some(input), None, None, None, None));
  }

  /** `onLanguageChange`: a non-empty language becomes every tab's and the global language. */
  method OnLanguageChange(app: App, tab: string, language: string)
    requires app.Valid()
    modifies app`tabStates, app`globalLanguage
    ensures app.Valid()
    ensures app.tabStates == UpdatedTabs(old(app.tabStates), tab, TabFields(None, Some(language), None, None, None))
    ensures language != "" ==> app.globalLanguage == language
    ensures language == "" ==> app.globalLanguage == old(app.globalLanguage)
  {
    app.UpdateTabState(tab, TabFields(None, Some(language), None, None, None));
  }

  /** The clear button: the tab's input becomes empty. */
  method ClearTabInput(app: App, tab: string)
    requires app.Valid()
    modifies app`tabStates, app`globalLanguage
    ensures app.Valid()
    ensures app.tabStates == UpdatedTabs(old(app.tabStates), tab, TabFields(Some(""), None, None, None, None))
    ensures tab in app.tabStates && app.tabStates[tab].input == Some("")
    ensures app.globalLanguage == old(app.globalLanguage)
  {
    OnInputChange(app, tab, ClearInput());
    UpdatedTabsTarget(old(app.tabStates), tab, TabFields(Some(""), None, None, None, None));
  }

  /** The form settings of a tab. */
  datatype TabConfig = TabConfig(kind: InputKind, placeholder: string, formLabel: string)

  /** `getTabConfig`. */
  function GetTabConfig(tab: string, t: string -> string): (config: TabConfig)
    ensures config.kind == SentenceInput <==> tab == "analyse" || tab == "correction"
    ensures tab == "dictionary" ==> config == TabConfig(WordInput, t("enterWordPlaceholder"), t("wordToLookUp"))
    ensures tab == "analyse" ==>
      config == TabConfig(SentenceInput, t("enterSentenceAnalysePlaceholder"), t("sentenceToAnalyse"))
    ensures tab == "correction" ==>
      config == TabConfig(SentenceInput, t("enterSentenceCorrectionPlaceholder"), t("sentenceToCorrect"))
    ensures !IsKnownTab(tab) ==> config == TabConfig(WordInput, "", "")
  {
    match tab
    case "dictionary" => TabConfig(WordInput, t("enterWordPlaceholder"), t("wordToLookUp"))
    case "analyse" => TabConfig(SentenceInput, t("enterSentenceAnalysePlaceholder"), t("sentenceToAnalyse"))
    case "correction" => TabConfig(SentenceInput, t("enterSentenceCorrectionPlaceholder"), t("sentenceToCorrect"))
    case _ => TabConfig(WordInput, "", "")
  }

  /** With the hook's `t`, a tab has a placeholder and a label exactly when the page knows it. */
  lemma ConfigTextIffKnown(tr: Translations, language: string, tab: string)
    ensures var config := GetTabConfig(tab, Translator(tr, language));
            (config.placeholder != "" <==> IsKnownTab(tab)) && (config.formLabel != "" <==> IsKnownTab(tab))
  {
    if IsKnownTab(tab) {
      NeverEmpty(tr, language, "enterWordPlaceholder");
      NeverEmpty(tr, language, "wordToLookUp");
      NeverEmpty(tr, language, "enterSentenceAnalysePlaceholder");
      NeverEmpty(tr, language, "sentenceToAnalyse");
      NeverEmpty(tr, language, "enterSentenceCorrectionPlaceholder");
      NeverEmpty(tr, language, "sentenceToCorrect");
    }
  }
}
