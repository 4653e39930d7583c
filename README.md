# My Language Aibou: selection, tooltip and tab state, modelled in Dafny

My Language Aibou is a single-page language-learning app. A user submits a word or a sentence on
one of three tabs ("dictionary", "analyse", "correction") and reads the answer of a remote
analysis service. They can also select text inside an answer; a tooltip then offers to define
the selection (one word) or translate it (a phrase).

This project models the deterministic layer under the user interface and proves properties
of it:

- **Selection classification** (`WordHoverProvider`). A script-aware word count decides between
  "word" and "phrase". The three-cell selection store is a class whose cells are set and
  cleared together. The dictionary and translate actions filter the stored text and build a
  `(tab, field, text)` navigation.
- **Selection detection** (`InteractiveText`):
  - `cleanText` and `isValidSelection`;
  - the debounced evaluation that reduces a browser selection to "hide" or "show";
  - the key-up filter;
  - the one replaceable evaluation timer.
- **Tooltip presentation** (`WordTooltip`):
  - the render guard and the 30-character truncation;
  - the label and the action dispatch;
  - the placement;
  - the three dismiss gestures, which are live only while a selection is shown.
- **Page state** (`AppPage`):
  - the history, capped at 50 and newest first;
  - the partial-record merge into one tab, and the language sync across all tabs (a loop over
    the tab keys);
  - the initial tabs, the titles and descriptions, and the mobile menu flag.
- **Tab logic** (`TabContent`):
  - the submit sequence: loading, answer or error, then exactly one history entry on success;
  - the dictionary answer's markdown layout and the `Invalid tab` failure;
  - the form settings per tab.
- **The form** (`InputForm`): trimming, Enter-key gating, and the disabled, clear and label
  rules.
- **The answer panel** (`ResponseArea`):
  - `processContent`, proved to leave no escaped line break, normal bullets and no
    surrounding whitespace, and to be idempotent;
  - the panel precedence and the header keys;
  - the copy button's flag and its reset timers.
- **Translation** (`UseTranslation`): the "current table, then English, then the key"
  fallback.

Two shared modules support these:

- `JsString` gives the JavaScript semantics used throughout: the `\s` and `\w` classes, the
  CJK ranges, regex deletion, `trim`, and `split(/\s+/)`.
- `Wrappers` gives `Option` and `Result`.

Strings are sequences of UTF-16 code units, because the regular expressions carry no `u` flag.
The model has no I/O. The browser's selection, the endpoints' answers, local storage and the
translation tables are parameters, and timers are explicit pending-timer state.

Two inconsistencies of the program are kept as written:

- The sidebar's `translate` tab has no entry in the page's tab records. A form update creates
  one holding only the update's fields (`AppPage.UnknownTabGetsOnlyUpdates`), and every submit
  on that tab fails with `Invalid tab` (`TabContent.TranslateTabSubmitFails`). In the running
  program neither path is reached: selecting that tab makes `TabContent` read `loading` of
  `undefined` at render time (`src/components/TabContent.tsx:121`), which throws before the
  form is shown. Both are stated of the handlers as written.
- A single CJK character is classified as a word. The dictionary filter deletes it, so
  "Define in Dictionary" opens nothing
  (`WordHoverProvider.SingleCjkWordOpensNoDictionary`).

## Model

| member | source | states |
|---|---|---|
| JsString.TrimSpec | src/components/WordHoverProvider.tsx:53 | `trim` removes exactly the leading and trailing whitespace runs. The result is a slice with whitespace on both sides of it. It has no surrounding whitespace. It is empty iff the input is all whitespace. It is the identity on trimmed text. |
| JsString.KeepAppend | src/components/WordHoverProvider.tsx:53 | Deleting a character class with `replace(/[^...]/g, '')` distributes over concatenation. |
| JsString.KeepAllSpace | src/components/WordHoverProvider.tsx:53 | The filtered text is all whitespace iff every kept character of the input is whitespace. |
| JsString.WordRunsZero | src/components/WordHoverProvider.tsx:62 | A text has no run of non-whitespace iff it is all whitespace. |
| JsString.TrimPadded | src/components/InteractiveText.tsx:19 | Trimming non-empty trimmed text padded with whitespace on both sides gives that text. |
| JsString.LeadingAfterSpaces | src/components/InteractiveText.tsx:19 | The leading whitespace of whitespace followed by a visible code unit is exactly that whitespace. |
| JsString.TrailingBeforeSpaces | src/components/InteractiveText.tsx:19 | The trailing whitespace of a visible code unit followed by whitespace is exactly that whitespace. |
| JsString.TrimWordRuns | src/components/WordHoverProvider.tsx:62 | Trimming does not change the number of non-whitespace runs. |
| JsString.SplitFromLength | src/components/WordHoverProvider.tsx:62 | `split(/\s+/)` yields one more piece than the text has whitespace runs. |
| JsString.SplitCountsWordRuns | src/components/WordHoverProvider.tsx:62 | On non-empty trimmed text, `split(/\s+/)` yields exactly one non-empty piece per non-whitespace run. |
| WordHoverProvider.CountWords | src/components/WordHoverProvider.tsx:52-65 | The word count is the number of CJK code units plus the number of `\w` runs left after deleting every other character, so deleted characters join their neighbours (`"ab日cd"` counts 2). |
| WordHoverProvider.CleanedKeepsCounts | src/components/WordHoverProvider.tsx:53-61 | Trimming the `[\w\s<CJK>]`-filtered text loses no CJK code unit and no word run. When nothing is left, the text had neither. |
| WordHoverProvider.Classify | src/components/WordHoverProvider.tsx:67-69 | A selection is `'word'` iff it has exactly one CJK code unit and no `\w` run, or no CJK code unit and exactly one `\w` run. |
| WordHoverProvider.CountWordsZero | src/components/WordHoverProvider.tsx:53-55 | The count is 0 iff no character of the text is a non-whitespace `\w`/CJK character. This covers empty, blank, punctuation-only and non-CJK non-ASCII text. |
| WordHoverProvider.SingleCjkIsOneWord | src/components/WordHoverProvider.tsx:58-64 | One CJK code unit counts as one word and is classified `'word'`. |
| WordHoverProvider.SingleAsciiWordIsOneWord | src/components/WordHoverProvider.tsx:61-62 | A non-empty run of ASCII word characters counts as one word. |
| WordHoverProvider.DictionaryTarget | src/components/WordHoverProvider.tsx:82-90 | The dictionary navigation exists iff the text holds a non-whitespace `[\w-']` character. Its text is non-empty, trimmed and lies in `[\w\s-']`. It targets tab `dictionary`, field `word`. |
| WordHoverProvider.TranslateTarget | src/components/WordHoverProvider.tsx:95-103 | The translate navigation exists iff the text holds a non-whitespace `[\w<CJK>'"-]` character. Its text is non-empty, trimmed and lies in `[\w\s<CJK>'"-]`. It targets tab `translate`, field `sentence`. |
| WordHoverProvider.FilterTrimSpec | src/components/WordHoverProvider.tsx:84-86 | Filter-then-trim leaves something iff some kept character is not whitespace. What it leaves is trimmed and in the class. |
| WordHoverProvider.DictionaryTargetIdentity | src/components/WordHoverProvider.tsx:82-90 | The dictionary opens the selection itself (`serendipity` opens `serendipity`) iff it is non-empty, trimmed and entirely in `[\w\s-']`. |
| WordHoverProvider.TranslateTargetIdentity | src/components/WordHoverProvider.tsx:95-103 | The translation opens the selection itself (`how are you` opens `how are you`) iff it is non-empty, trimmed and entirely in `[\w\s<CJK>'"-]`. |
| WordHoverProvider.DictionaryTargetIsSlice | src/components/WordHoverProvider.tsx:84 | The opened text is a contiguous stretch of the `[\w\s-']`-filtered selection, and everything of it before and after that stretch is whitespace. |
| WordHoverProvider.TranslateTargetIsSlice | src/components/WordHoverProvider.tsx:97 | The opened text is a contiguous stretch of the `[\w\s<CJK>'"-]`-filtered selection, and everything of it before and after that stretch is whitespace. |
| WordHoverProvider.FilterTrimSlice | src/components/WordHoverProvider.tsx:84 | Filter-then-trim is the filtered text less a whitespace prefix and a whitespace suffix. |
| WordHoverProvider.FilterTrimIdentity | src/components/WordHoverProvider.tsx:84 | Filtering and trimming a trimmed text that lies wholly in the class gives it back. |
| WordHoverProvider.SingleCjkWordOpensNoDictionary | src/components/WordHoverProvider.tsx:67-106 | A single CJK character is a `'word'`, yet the dictionary action opens nothing for it, while translating it would open it. |
| WordHoverProvider.SelectionStore.constructor | src/components/WordHoverProvider.tsx:32-34 | The store starts with all three cells null. |
| WordHoverProvider.SelectionStore.ShowTooltip | src/components/WordHoverProvider.tsx:67-74 | The text is stored verbatim with position `(x, y)`. The type is `'word'` iff the count is 1. This replaces any previous selection wholesale and keeps the all-or-none invariant. |
| WordHoverProvider.SelectionStore.HideTooltip | src/components/WordHoverProvider.tsx:76-80 | All three cells become null. On an empty store nothing changes. |
| WordHoverProvider.SelectionStore.LookupWord | src/components/WordHoverProvider.tsx:82-93 | It emits the dictionary navigation, if any, and the store is always left empty. |
| WordHoverProvider.SelectionStore.TranslatePhrase | src/components/WordHoverProvider.tsx:95-106 | It emits the translate navigation, if any, and the store is always left empty. |
| WordHoverProvider.UseTextSelection | src/components/WordHoverProvider.tsx:15-21 | It returns the provider's store, or fails with the exact missing-provider message iff there is no provider. |
| InteractiveText.CleanText | src/components/InteractiveText.tsx:17-20 | The clean text has no surrounding whitespace. Its only whitespace is single plain spaces. It is empty iff the input is all whitespace. It keeps every non-whitespace code unit of the input, in order and nothing else, and text that is already trimmed with single plain spaces comes back unchanged. `split(/\s+/)` cuts it into the same pieces as the trimmed input, so every whitespace run between two words becomes exactly one space; it has as many words as the input. |
| InteractiveText.CollapseKeepsVisible | src/components/InteractiveText.tsx:19 | `replace(/\s+/g, ' ')` keeps the non-whitespace code units, in order, and adds none. |
| InteractiveText.TrimKeepsVisible | src/components/InteractiveText.tsx:19 | `trim` keeps the non-whitespace code units, in order. |
| InteractiveText.CollapseTrimFixed | src/components/InteractiveText.tsx:19 | Collapsing and trimming change nothing in text that is trimmed and uses single plain spaces. |
| InteractiveText.CollapseKeepsPieces | src/components/InteractiveText.tsx:19 | `replace(/\s+/g, ' ')` does not change the pieces `split(/\s+/)` cuts, whatever piece is in progress. |
| InteractiveText.CollapseAppend | src/components/InteractiveText.tsx:19 | Collapsing distributes over a concatenation that does not join two whitespace runs. |
| InteractiveText.CollapseOfSpaces | src/components/InteractiveText.tsx:19 | A non-empty whitespace run collapses to one space. |
| InteractiveText.CollapseTrimmed | src/components/InteractiveText.tsx:19 | The collapse of non-empty trimmed text is non-empty and trimmed. |
| InteractiveText.CollapseTrimCommute | src/components/InteractiveText.tsx:19 | Collapsing then trimming equals trimming then collapsing. |
| InteractiveText.SplitWordRuns | src/components/InteractiveText.tsx:19 | Trimmed text has one word per `split(/\s+/)` piece, and none when empty. |
| InteractiveText.CleanLineBreak | src/components/InteractiveText.tsx:17-20 | `cleanText(" a\n\tb ")` is `"a b"`. |
| InteractiveText.CleanTextIdempotent | src/components/InteractiveText.tsx:17-20 | `cleanText(cleanText(s)) == cleanText(s)`. |
| InteractiveText.CollapseIsNormal | src/components/InteractiveText.tsx:19 | After `replace(/\s+/g, ' ')` no whitespace other than a space remains and no two whitespace characters are adjacent. |
| InteractiveText.IsValidSelection | src/components/InteractiveText.tsx:22-26 | A selection is valid iff it is not all whitespace and its clean text has at most 100 code units. |
| InteractiveText.Evaluate | src/components/InteractiveText.tsx:36-64 | The result is "show" iff there is a range, the text is valid and the mounted container contains it; every other case is "hide". A "show" carries `cleanText(text)`, which is 1 to 100 code units and trimmed, at `left + width/2`, `top`. |
| InteractiveText.CleanSelectionShownAsIs | src/components/InteractiveText.tsx:36-64 | A valid, ranged selection inside the mounted container that is already clean (such as `serendipity`) is shown exactly as selected. |
| InteractiveText.UnmountedAlwaysHides | src/components/InteractiveText.tsx:52-56 | With the container gone, every evaluation hides. |
| InteractiveText.SelectionDetector.AtMostOnePending | src/components/InteractiveText.tsx:28-35 | Under the detector's invariant at most one evaluation is pending, and it is the one `selectionTimeoutRef` names. |
| InteractiveText.ClearTimeout | src/components/InteractiveText.tsx:30-32 | Clearing the timer the ref names drops exactly that timer and keeps every other one as it was; with no id nothing changes. |
| InteractiveText.SelectionDetector.constructor | src/components/InteractiveText.tsx:82-89 | Mounting attaches the listeners and schedules nothing. |
| InteractiveText.SelectionDetector.HandleSelectionChange | src/components/InteractiveText.tsx:28-35 | The timer map is exactly the old one without the armed evaluation, plus one fresh evaluation, which the ref now names. Deferred checks are kept and the flags do not change. |
| InteractiveText.SelectionDetector.ScheduleDeferredCheck | src/components/InteractiveText.tsx:70 | It adds one 10 ms check and leaves the pending evaluation alone. |
| InteractiveText.SelectionDetector.OnMouseUp | src/components/InteractiveText.tsx:68-71 | While attached, a mouse-up adds exactly one 10 ms check under a fresh id; otherwise nothing changes. The ref and the flags never change. |
| InteractiveText.SelectionDetector.OnKeyUp | src/components/InteractiveText.tsx:73-80 | Exactly one 10 ms check is added iff Shift is held, the key is an arrow key, or the key is Ctrl+`a`; otherwise nothing changes. The ref and the flags never change. |
| InteractiveText.SelectionDetector.OnDocumentSelectionChange | src/components/InteractiveText.tsx:89 | While attached, a selection change re-arms the single evaluation with the exact timer map of `handleSelectionChange`; otherwise nothing changes. The flags never change. |
| InteractiveText.SelectionDetector.Fire | src/components/InteractiveText.tsx:35-65 | A deferred check re-arms the evaluation with the exact timer map and leaves the store unchanged. A running evaluation removes only itself and applies `Evaluate`: it hides, or stores the text, position and type; the stored text is 1 to 100 code units; nothing stays pending. |
| InteractiveText.SelectionDetector.Unmount | src/components/InteractiveText.tsx:91-99 | Listeners are removed and the timer map is exactly the old one without the armed evaluation. The ref keeps its id. The untracked 10 ms checks stay scheduled. |
| WordTooltip.DisplayText | src/components/WordTooltip.tsx:55-57 | Text of up to 30 units is unchanged. Longer text gives its first 30 units followed by `...`. The result never exceeds 33 units. |
| WordTooltip.ActionLabel | src/components/WordTooltip.tsx:59-60 | `'Define in Dictionary'` iff the type is `'word'`, and `'Translate'` for `'phrase'`. |
| WordTooltip.ActionTarget | src/components/WordTooltip.tsx:46-52 | A word goes to the dictionary target and a phrase to the translate target; any navigation has non-empty text. |
| WordTooltip.View | src/components/WordTooltip.tsx:42-69 | It renders iff text is non-empty and position and type are present. The view shows `DisplayText` of the text and `ActionLabel` of the type, at `left = x` and `top = y - 70`. |
| WordTooltip.TooltipPresenter.constructor | src/components/WordTooltip.tsx:5-7 | The tooltip starts on the shared store with no document listener attached. |
| WordTooltip.TooltipPresenter.SyncListeners | src/components/WordTooltip.tsx:29-40 | The dismiss listeners are attached exactly while the selected text is non-empty. |
| WordTooltip.TooltipPresenter.OnMouseDown | src/components/WordTooltip.tsx:10-14 | A mouse-down outside the rendered tooltip hides the selection. Inside, or with no listener, nothing changes. |
| WordTooltip.TooltipPresenter.OnKeyDown | src/components/WordTooltip.tsx:16-20 | `Escape` hides the selection. Any other key changes nothing. |
| WordTooltip.TooltipPresenter.OnSelectionChange | src/components/WordTooltip.tsx:22-27 | A selection with no range hides the tooltip. Otherwise nothing changes. |
| WordTooltip.TooltipPresenter.Close | src/components/WordTooltip.tsx:79-85 | The close button of the rendered tooltip empties the store. |
| WordTooltip.TooltipPresenter.HandleAction | src/components/WordTooltip.tsx:46-52 | It emits `ActionTarget` of the stored text and type, and leaves the store empty. |
| AppPage.Merge | src/pages/AppPage.tsx:49 | Each field present in the update wins. Every absent field keeps its old value. |
| AppPage.MergeKeepsComplete | src/pages/AppPage.tsx:49 | Merging a partial update into a full tab state leaves a full tab state. |
| AppPage.MergeAssociative | src/pages/AppPage.tsx:46-50 | Two successive updates equal one update with their merge. |
| AppPage.InitialTabs | src/pages/AppPage.tsx:16-36 | There are exactly the three tabs. Each has input `''`, response `''`, loading false, error null and the global language. |
| AppPage.UpdatedTabsKeys | src/pages/AppPage.tsx:46-62 | An update adds the target tab and keeps every other key. |
| AppPage.UpdatedTabsTarget | src/pages/AppPage.tsx:47-50 | The target tab holds its old fields overwritten by exactly the present updates. |
| AppPage.UpdatedTabsOthers | src/pages/AppPage.tsx:46-62 | Other tabs are unchanged unless the update has a non-empty language. Then only their `language` changes, to it. |
| AppPage.UpdatedTabsShareLanguage | src/pages/AppPage.tsx:53-62 | After a non-empty language update every tab has that language. |
| AppPage.UnknownTabGetsOnlyUpdates | src/pages/AppPage.tsx:49 | A tab with no record (`translate`) receives only the update's fields. |
| AppPage.SetLanguageOnAll | src/pages/AppPage.tsx:56-62 | The `forEach` keeps the key set and rewrites every tab's `language`, leaving its other fields alone. |
| AppPage.PrependCapped | src/pages/AppPage.tsx:38-40 | The history length is `min(|prev|+1, 50)`. The new item is first and the kept old items follow in their order. |
| AppPage.AddAllKeepsLatest | src/pages/AppPage.tsx:38-40 | After any sequence of additions the history is the additions, newest first, then the old entries, cut to 50. |
| AppPage.Capitalize | src/pages/AppPage.tsx:75 | The length is kept. Only the first character is upper-cased; the rest is unchanged. |
| AppPage.GetTabTitle | src/pages/AppPage.tsx:66-77 | A known tab gets its translated title; any other tab gets its capitalised id. |
| AppPage.GetTabDescription | src/pages/AppPage.tsx:79-90 | A known tab gets its translated description; any other tab gets `''`. |
| AppPage.TranslateTabTitle | src/pages/AppPage.tsx:66-90 | The `translate` tab is titled `Translate` and has an empty description. |
| AppPage.TitleEmptyOnlyForEmptyTab | src/pages/AppPage.tsx:66-77 | With the hook's `t`, the title is empty iff the tab id is. |
| AppPage.DescriptionEmptyIffUnknown | src/pages/AppPage.tsx:79-90 | With the hook's `t`, the description is empty iff the tab is not one of the three. |
| AppPage.App.constructor | src/pages/AppPage.tsx:25-36 | The page starts on `dictionary` with the menu closed. It has the stored history and language, and the initial tabs. |
| AppPage.App.SetActiveTab | src/pages/AppPage.tsx:25 | It selects the given tab. |
| AppPage.App.HandleAddToHistory | src/pages/AppPage.tsx:38-40 | The history becomes `[item, ...prev.slice(0, 49)]`. |
| AppPage.App.ToggleMobileMenu | src/pages/AppPage.tsx:42-44 | It negates the menu flag. |
| AppPage.App.UpdateTabState | src/pages/AppPage.tsx:46-64 | The tabs become the merge followed by the language sync. The global language follows a non-empty update. The three tabs remain complete. |
| TabContent.ErrorMessage | src/components/TabContent.tsx:79 | An `Error`'s message, else `'An error occurred'`. |
| TabContent.DictionaryMarkdown | src/components/TabContent.tsx:52 | It gives the three headings `## Definition`, `## Synonyms` and `## Word History`, with the replies verbatim, at the stated offsets. |
| TabContent.TabResult | src/components/TabContent.tsx:43-62 | The dictionary composes its three replies, and a rejection of any of them is the result. `analyse` and `correction` pass their reply through. Any other tab fails with `Invalid tab`. |
| TabContent.OnlyKnownTabsSucceed | src/components/TabContent.tsx:60-61 | Only the three known tabs can produce an answer. |
| TabContent.TranslateTabSubmitFails | src/components/TabContent.tsx:60-61 | Submitting on `translate` always fails with `Invalid tab`. |
| TabContent.EntryFor | src/components/TabContent.tsx:67-74 | The history item has type = tab, query = input, response = result and the submitted language. |
| TabContent.StartSubmit | src/components/TabContent.tsx:32-38 | The tab shows loading with `error` null and `response` `''`. It records the input and language, and a non-empty language syncs globally. |
| TabContent.FinishSubmit | src/components/TabContent.tsx:64-82 | On success the response is stored, loading ends and exactly one history item is added. On failure the error message is stored, loading ends and the history is unchanged. |
| TabContent.Submit | src/components/TabContent.tsx:31-83 | The whole submit: this gives the final record of the tab and the history on success or on failure. Other tabs change only by the language sync, the tab is added to the keys, and the global language becomes the submitted one iff it is non-empty. |
| TabContent.OnInputChange | src/components/TabContent.tsx:126 | Typing updates only the tab's input. |
| TabContent.OnLanguageChange | src/components/TabContent.tsx:127 | A language choice goes through `updateTabState`, so a non-empty language syncs everywhere. |
| TabContent.ClearTabInput | src/components/InputForm.tsx:39-41 | The clear button is the tab update with an empty input and no other field: `tabStates` becomes exactly that update's result, and the global language does not change. |
| TabContent.GetTabConfig | src/components/TabContent.tsx:85-112 | The dictionary uses a word input and the other two tabs a sentence textarea. Any other tab gets a word input with an empty placeholder and label. |
| TabContent.ConfigTextIffKnown | src/components/TabContent.tsx:85-112 | With the hook's `t`, placeholder and label are non-empty iff the tab is known. |
| InputForm.FormSubmit | src/components/InputForm.tsx:32-37 | It submits iff the value is not all whitespace, and then submits `value.trim()` with the language. |
| InputForm.ResubmitIsStable | src/components/InputForm.tsx:34-35 | Re-submitting a submitted input submits it unchanged. |
| InputForm.KeyDown | src/components/InputForm.tsx:43-55 | Enter is intercepted and runs the submit, except Shift+Enter in the sentence textarea. Other keys pass through. |
| InputForm.EnterSubmitsIffEnabled | src/components/InputForm.tsx:43-55 | An intercepted Enter submits exactly when the button would be enabled. |
| InputForm.SubmitDisabled | src/components/InputForm.tsx:108 | The button is disabled iff loading or the value is all whitespace. |
| InputForm.ClearInput | src/components/InputForm.tsx:39-41 | Clearing sends `''`, which hides the clear button and disables submit. |
| InputForm.ButtonLabelKey | src/components/InputForm.tsx:112 | The key is `processing` iff loading, else `submit`. |
| ResponseArea.ReplaceBySelf | src/components/ResponseArea.tsx:33 | Replacing `\n\n` by `\n\n` is the identity. |
| ResponseArea.UnescapeLeavesNoPair | src/components/ResponseArea.tsx:31 | After `replace(/\\n/g, '\n')` no backslash is followed by `n`. |
| ResponseArea.UnescapeWithoutPair | src/components/ResponseArea.tsx:31 | Text without such a pair is unchanged. |
| ResponseArea.NormalizeRespaces | src/components/ResponseArea.tsx:35 | The bullet step moves nothing. It only turns whitespace into spaces, and only whitespace directly after a line break and a dash. |
| ResponseArea.NormalizeIsNormal | src/components/ResponseArea.tsx:35 | After the step every line break, dash and whitespace triple ends in a plain space. |
| ResponseArea.NormalizeFixed | src/components/ResponseArea.tsx:35 | Text whose bullets are already normal is unchanged. |
| ResponseArea.ProcessContent | src/components/ResponseArea.tsx:28-38 | The processed answer is trimmed, has no backslash-`n` pair and has only normal bullets. An answer that already has all three properties comes back unchanged. |
| ResponseArea.ProcessFixed | src/components/ResponseArea.tsx:28-38 | Every stage leaves alone an answer that is trimmed, has no backslash-`n` pair and has only normal bullets. |
| ResponseArea.ProcessContentIdempotent | src/components/ResponseArea.tsx:28-38 | Processing twice equals processing once. |
| ResponseArea.HeaderKey | src/components/ResponseArea.tsx:49-60 | `dictionary` gives `wordInformation` and `correction` gives `correction`. Every other tab gives `analysis`. |
| ResponseArea.View | src/components/ResponseArea.tsx:61-92 | Loading gives the spinner. Otherwise a non-empty error gives the error box, and otherwise empty content gives the get-started text. Else the answer shows the header, the processed content and the copy caption. |
| ResponseArea.CopyButton.CopyToClipboard | src/components/ResponseArea.tsx:39-47 | The clipboard is offered `processContent(content)`, which is trimmed. Only an accepted write raises `copied` and starts a reset. |
| ResponseArea.CopyButton.ResetFires | src/components/ResponseArea.tsx:43 | A reset lowers `copied`, even during a later copy's display. A raised flag always has a reset pending. |
| ResponseArea.CopyButton.constructor | src/components/ResponseArea.tsx:18 | The copy button starts with `copied` false and no reset pending. |
| UseTranslation.CurrentTable | src/hooks/useTranslation.ts:5 | It picks the language's table, or the English table for an unknown language. |
| UseTranslation.Translate | src/hooks/useTranslation.ts:7-9 | The result is the current entry when non-empty, otherwise the English entry, otherwise the key. |
| UseTranslation.UnknownLanguageIsEnglish | src/hooks/useTranslation.ts:5 | An unsupported language translates exactly like English. |
| UseTranslation.FallbackChain | src/hooks/useTranslation.ts:8 | This is each link of `current || English || key`. |
| UseTranslation.EnglishShortcut | src/hooks/useTranslation.ts:5-8 | For English, the result is its entry if non-empty, else the key. |
| UseTranslation.NeverEmpty | src/hooks/useTranslation.ts:8 | A non-empty key never translates to `''`. |

## Left out

- Characters outside the Basic Multilingual Plane: the model's strings cannot hold unpaired surrogates, so text with astral characters (such as emoji, which JavaScript sees as two code units) is outside the model.
- The DOM is left out. `window.getSelection`, `Range.commonAncestorContainer` and `container.contains` become one selection snapshot. `addEventListener`/`removeEventListener` become a `listening` flag, and `scrollIntoView` is not modelled.
- Real time is left out. The 100 ms, 10 ms and 2000 ms timers are pending-timer state that an explicit `Fire`/`ResetFires` step runs. The model does not fix which timer runs first.
- The 10 ms deferred checks of `InteractiveText` are never cancelled, even on unmount, and the model keeps them so. A check that fires after unmount arms an evaluation that always hides.
- `window.open` and `encodeURIComponent`: a navigation is the `(tab, field, text)` triple; the URL string is not built.
- `navigator.clipboard`: whether the write succeeds is an input; `console.error` is not modelled.
- The remote API (`src/services/api.ts`), including its stripping of surrounding quotes, is not part of this model. The endpoints' answers are inputs. `Promise.all` is one combined result for the three word endpoints; which of them rejects first is timing.
- The `await` gap of `handleSubmit` is the split between `TabContent.StartSubmit` and `TabContent.FinishSubmit`. Other updates may run in between; `TabContent.Submit` covers the case where none does.
- `useLocalStorage` persistence: the stored history and language are constructor inputs; writes back to storage are not modelled.
- The `translations` constant is not part of this model; the tables are a parameter (`UseTranslation.Translations`).
- `id` and `timestamp` of history items (`Date.now()`) are not modelled.
- Rendering is not modelled: React re-render timing, markdown rendering (`ReactMarkdown`), icons, CSS classes, and the landing page, sidebar, toggle group, language selector and spinner components.
- `isWordBoundary` in `WordHoverProvider` is never called and is not modelled.
- AppPage.Capitalize: `toUpperCase` is modelled for ASCII letters only. Other letters are left as they are, and case mappings that change length (such as `ß` to `SS`) are not modelled.
- Selecting the sidebar's `translate` tab passes `tabStates['translate']`, which starts out `undefined`, to `TabContent`. Reading `undefined.loading` there fails at render time. The render is not modelled; only the form updates and the `Invalid tab` submit are.
- In `InputForm`, `handleKeyDown` is attached to the textarea only, so its word-input branch never runs. The single-line input submits on Enter through the browser's form submission, which is `InputForm.FormSubmit`.
- Floating-point coordinates are modelled as mathematical reals.
