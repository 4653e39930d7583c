/**
  The text-selection store shared by the page: it classifies a selected string as a
  word or a phrase by counting its words (with each CJK code unit a word of its own),
  keeps the selected text, its position and its type together, and turns a selection
  into a dictionary or translation navigation.
 */
module WordHoverProvider {
  import opened Wrappers
  import opened JsString

  // ---------------------------------------------------------------------------
  // Character classes of the filters

  /** `[\w\s<CJK>]`: what `countWords` keeps. */
  predicate IsCountedChar(c: char) { IsWordChar(c) || IsSpace(c) || IsCjk(c) }

  /** What deleting the CJK class leaves. */
  predicate IsNotCjk(c: char) { !IsCjk(c) }

  /** `[\w\s]`: the counted class without CJK. */
  predicate IsWordOrSpace(c: char) { IsWordChar(c) || IsSpace(c) }

  /** `[\w\s-']`: what `lookupWord` keeps. */
  predicate IsLookupChar(c: char) { IsWordChar(c) || IsSpace(c) || c == '-' || c == '\'' }

  /** `[\w\s<CJK>'"-]`: what `translatePhrase` keeps. */
  predicate IsTranslateChar(c: char) {
    IsWordChar(c) || IsSpace(c) || IsCjk(c) || c == '\'' || c == '"' || c == '-'
  }

  /** `text` holds a code unit that `keep` keeps and that is not whitespace. */
  predicate HasVisible(text: string, keep: char -> bool) {
    exists i :: 0 <= i < |text| && keep(text[i]) && !IsSpace(text[i])
  }

  // ---------------------------------------------------------------------------
  // Word counting

  /**
    `countWords`: delete everything outside `[\w\s<CJK>]` and trim; nothing left is 0
    words. Otherwise every CJK code unit is a word, and the text without the CJK code
    units contributes the pieces of `split(/\s+/)` of its trim, when that is non-empty.

    The number is the CJK code units of `text` plus the maximal runs of `\w` code units
    once everything outside `[\w\s]` is deleted: deleted code units join their
    neighbours, so `"ab日cd"` is 1 + 1 words.
   */
  function CountWords(text: string): (n: nat)
    ensures n == |Keep(text, IsCjk)| + WordRuns(Keep(text, IsWordOrSpace))
  {
    var cleaned := Trim(Keep(text, IsCountedChar));
    CleanedKeepsCounts(text);
    if cleaned == [] then 0
    else
      var cjkCount := |Keep(cleaned, IsCjk)|;
      var nonCjkText := Keep(cleaned, IsNotCjk);
      SpaceWordsAreWordRuns(nonCjkText);
      var spaceWords := if Trim(nonCjkText) != [] then |SplitOnSpaceRuns(Trim(nonCjkText))| else 0;
      cjkCount + spaceWords
  }

  /** `'word'` when the selection counts exactly one word, `'phrase'` otherwise. */
  datatype SelectionType = Word | Phrase

  /**
    A selection is a word when it holds exactly one CJK code unit and no `\w` run, or
    no CJK code unit and exactly one `\w` run (after deleting everything outside `[\w\s]`).
   */
  function Classify(text: string): (kind: SelectionType)
    ensures kind == Word <==>
      || (|Keep(text, IsCjk)| == 1 && WordRuns(Keep(text, IsWordOrSpace)) == 0)
      || (|Keep(text, IsCjk)| == 0 && WordRuns(Keep(text, IsWordOrSpace)) == 1)
  {
    if CountWords(text) == 1 then Word else Phrase
  }

  lemma SpaceIsNotCjk(c: char)
    requires IsSpace(c)
    ensures !IsCjk(c) && IsCountedChar(c) && IsWordOrSpace(c)
  {
  }

  /** Keeping a class that contains no whitespace drops whitespace padding. */
  lemma KeepPaddedNone(pre: string, m: string, post: string, keep: char -> bool)
    requires AllSpace(pre) && AllSpace(post)
    requires forall c :: IsSpace(c) ==> !keep(c)
    ensures Keep(pre + m + post, keep) == Keep(m, keep)
  {
    KeepAppend(pre + m, post, keep);
    KeepAppend(pre, m, keep);
    KeepNone(pre, keep);
    KeepNone(post, keep);
  }

  /** Keeping a class that contains all whitespace keeps whitespace padding. */
  lemma KeepPaddedAll(pre: string, m: string, post: string, keep: char -> bool)
    requires AllSpace(pre) && AllSpace(post)
    requires forall c :: IsSpace(c) ==> keep(c)
    ensures Keep(pre + m + post, keep) == pre + Keep(m, keep) + post
  {
    KeepAppend(pre + m, post, keep);
    KeepAppend(pre, m, keep);
    KeepAll(pre, keep);
    KeepAll(post, keep);
  }

  /** CJK code units survive the first filter and are exactly what the CJK count sees. */
  lemma CjkThroughCounted(text: string)
    ensures Keep(Keep(text, IsCountedChar), IsCjk) == Keep(text, IsCjk)
  {
    KeepKeep(text, IsCountedChar, IsCjk, IsCjk);
  }

  /** Deleting CJK after the first filter leaves exactly the `[\w\s]` code units. */
  lemma NonCjkThroughCounted(text: string)
    ensures Keep(Keep(text, IsCountedChar), IsNotCjk) == Keep(text, IsWordOrSpace)
  {
    KeepKeep(text, IsCountedChar, IsNotCjk, IsWordOrSpace);
  }

  /** The space-separated part: `split(/\s+/)` of the trimmed non-CJK text counts its word runs. */
  lemma SpaceWordsAreWordRuns(nonCjkText: string)
    ensures (if Trim(nonCjkText) != [] then |SplitOnSpaceRuns(Trim(nonCjkText))| else 0)
         == WordRuns(nonCjkText)
  {
    TrimSpec(nonCjkText);
    TrimWordRuns(nonCjkText);
    if Trim(nonCjkText) != [] {
      SplitCountsWordRuns(Trim(nonCjkText));
    } else {
      WordRunsZero(nonCjkText);
    }
  }

  /**
    Trimming the `[\w\s<CJK>]`-filtered text loses no CJK code unit and no word run: its
    CJK units are those of `text`, and deleting its CJK units leaves the word runs of the
    `[\w\s]`-filtered `text`. When nothing is left, there was neither.
   */
  lemma CleanedKeepsCounts(text: string)
    ensures var cleaned := Trim(Keep(text, IsCountedChar));
      && |Keep(cleaned, IsCjk)| == |Keep(text, IsCjk)|
      && WordRuns(Keep(cleaned, IsNotCjk)) == WordRuns(Keep(text, IsWordOrSpace))
      && (cleaned == [] ==> Keep(text, IsCjk) == [] && WordRuns(Keep(text, IsWordOrSpace)) == 0)
  {
    var k := Keep(text, IsCountedChar);
    var cleaned := Trim(k);
    var a := LeadingSpaces(k);
    var pre, post := k[..a], k[a + |cleaned|..];
    TrimSpec(k);
    CjkThroughCounted(text);
    NonCjkThroughCounted(text);
    forall c | IsSpace(c) ensures !IsCjk(c) && IsNotCjk(c) { SpaceIsNotCjk(c); }
    KeepPaddedNone(pre, cleaned, post, IsCjk);
    KeepPaddedAll(pre, cleaned, post, IsNotCjk);
    WordRunsPadded(pre, Keep(cleaned, IsNotCjk), post);
    if cleaned == [] {
      assert Keep(cleaned, IsCjk) == [] && Keep(cleaned, IsNotCjk) == [];
      WordRunsZero(cleaned);
    }
  }

  /**
    Nothing counts exactly when nothing but whitespace survives the first filter:
    the empty text, blank text, punctuation and non-ASCII letters outside the CJK
    ranges are 0 words.
   */
  lemma CountWordsZero(text: string)
    ensures CountWords(text) == 0 <==> !HasVisible(text, IsCountedChar)
  {
    WordRunsZero(Keep(text, IsWordOrSpace));
    KeepAllSpace(text, IsWordOrSpace);
    if CountWords(text) == 0 {
      assert Keep(text, IsCjk) == [];
      forall i | 0 <= i < |text| && IsCountedChar(text[i]) ensures IsSpace(text[i]) {
        if IsCjk(text[i]) {
          KeepCjkSees(text, i);
        }
      }
    }
    if !HasVisible(text, IsCountedChar) {
      KeepNone(text, IsCjk);
    }
  }

  /** A CJK code unit of `text` leaves something for the CJK count. */
  lemma {:induction false} KeepCjkSees(text: string, i: nat)
    requires i < |text| && IsCjk(text[i])
    ensures Keep(text, IsCjk) != []
  {
    if i > 0 {
      assert text[1..][i - 1] == text[i];
      KeepCjkSees(text[1..], i - 1);
    }
  }

  /** A single CJK code unit is one word. */
  lemma SingleCjkIsOneWord(c: char)
    requires IsCjk(c)
    ensures CountWords([c]) == 1 && Classify([c]) == Word
  {
    assert Keep([c], IsCjk) == [c];
    assert Keep([c], IsWordOrSpace) == [];
  }

  /** A non-empty run of ASCII word characters, such as `"serendipity"`, is one word. */
  lemma SingleAsciiWordIsOneWord(w: string)
    requires w != [] && forall i :: 0 <= i < |w| ==> IsWordChar(w[i])
    ensures CountWords(w) == 1 && Classify(w) == Word
  {
    KeepNone(w, IsCjk);
    KeepAll(w, IsWordOrSpace);
    NoSpaceIsOneRun(w);
  }

  lemma {:induction false} NoSpaceIsOneRun(w: string)
    requires w != [] && forall i :: 0 <= i < |w| ==> !IsSpace(w[i])
    ensures WordRuns(w) == 1
  {
    if |w| > 1 {
      assert !IsSpace(w[1]);
      assert forall i :: 0 <= i < |w[1..]| ==> !IsSpace(w[1..][i]) by {
        forall i | 0 <= i < |w[1..]| ensures !IsSpace(w[1..][i]) { assert w[1..][i] == w[i + 1]; }
      }
      NoSpaceIsOneRun(w[1..]);
    }
  }

  // ---------------------------------------------------------------------------
  // Navigation targets

  /** `window.open` of `/app?tab=<tab>&<field>=<encoded text>` in a new tab. */
  datatype Navigation = Navigation(tab: string, field: string, text: string)

  /**
    What `lookupWord` opens: the selection filtered to `[\w\s-']` and trimmed, when
    anything is left. Something is opened exactly when the selection holds a
    `[\w-']` code unit; what is opened lies in the class and is trimmed.
   */
  function DictionaryTarget(text: string): (nav: Option<Navigation>)
    ensures nav.Some? <==> HasVisible(text, IsLookupChar)
    ensures nav.Some? ==> nav.value.tab == "dictionary" && nav.value.field == "word"
    ensures nav.Some? ==> nav.value.text != [] && Trimmed(nav.value.text)
    ensures nav.Some? ==> forall i :: 0 <= i < |nav.value.text| ==> IsLookupChar(nav.value.text[i])
  {
    var kept := Keep(text, IsLookupChar);
    var cleanText := Trim(kept);
    FilterTrimSpec(text, IsLookupChar);
    if cleanText != [] then Some(Navigation("dictionary", "word", cleanText)) else None
  }

  /**
    What `translatePhrase` opens: the selection filtered to `[\w\s<CJK>'"-]` and
    trimmed, when anything is left.
   */
  function TranslateTarget(text: string): (nav: Option<Navigation>)
    ensures nav.Some? <==> HasVisible(text, IsTranslateChar)
    ensures nav.Some? ==> nav.value.tab == "translate" && nav.value.field == "sentence"
    ensures nav.Some? ==> nav.value.text != [] && Trimmed(nav.value.text)
    ensures nav.Some? ==> forall i :: 0 <= i < |nav.value.text| ==> IsTranslateChar(nav.value.text[i])
  {
    var kept := Keep(text, IsTranslateChar);
    var cleanText := Trim(kept);
    FilterTrimSpec(text, IsTranslateChar);
    if cleanText != [] then Some(Navigation("translate", "sentence", cleanText)) else None
  }

  /**
    A selection that is already non-empty, trimmed and inside `[\w\s-']` is looked up as
    it is (selecting `serendipity` opens the dictionary on `serendipity`), and only such a
    selection is looked up unchanged.
   */
  lemma DictionaryTargetIdentity(text: string)
    ensures DictionaryTarget(text) == Some(Navigation("dictionary", "word", text)) <==>
      text != [] && Trimmed(text) && forall i :: 0 <= i < |text| ==> IsLookupChar(text[i])
  {
    if text != [] && Trimmed(text) && forall i :: 0 <= i < |text| ==> IsLookupChar(text[i]) {
      FilterTrimIdentity(text, IsLookupChar);
    }
  }

  /**
    A selection that is already non-empty, trimmed and inside `[\w\s<CJK>'"-]` is
    translated as it is (`how are you` opens the translation of `how are you`), and only
    such a selection is translated unchanged.
   */
  lemma TranslateTargetIdentity(text: string)
    ensures TranslateTarget(text) == Some(Navigation("translate", "sentence", text)) <==>
      text != [] && Trimmed(text) && forall i :: 0 <= i < |text| ==> IsTranslateChar(text[i])
  {
    if text != [] && Trimmed(text) && forall i :: 0 <= i < |text| ==> IsTranslateChar(text[i]) {
      FilterTrimIdentity(text, IsTranslateChar);
    }
  }

  /** The dictionary opens a contiguous stretch of the filtered selection with only whitespace around it. */
  lemma DictionaryTargetIsSlice(text: string)
    requires DictionaryTarget(text).Some?
    ensures exists a: nat :: PaddedSlice(Keep(text, IsLookupChar), DictionaryTarget(text).value.text, a)
  {
    FilterTrimSlice(text, IsLookupChar);
  }

  /** The translation opens a contiguous stretch of the filtered selection with only whitespace around it. */
  lemma TranslateTargetIsSlice(text: string)
    requires TranslateTarget(text).Some?
    ensures exists a: nat :: PaddedSlice(Keep(text, IsTranslateChar), TranslateTarget(text).value.text, a)
  {
    FilterTrimSlice(text, IsTranslateChar);
  }

  /** `part` sits at offset `a` of `whole` and everything of `whole` before and after it is whitespace. */
  predicate PaddedSlice(whole: string, part: string, a: nat) {
    && a + |part| <= |whole| && whole == whole[..a] + part + whole[a + |part|..]
    && AllSpace(whole[..a]) && AllSpace(whole[a + |part|..])
  }

  /** Filtering a trimmed text of the class and trimming gives the text back. */
  lemma FilterTrimIdentity(text: string, keep: char -> bool)
    requires Trimmed(text) && forall i :: 0 <= i < |text| ==> keep(text[i])
    ensures Trim(Keep(text, keep)) == text
  {
    KeepAll(text, keep);
    TrimOfTrimmed(text);
  }

  /** Filter-then-trim is the filtered text without a whitespace prefix and suffix. */
  lemma FilterTrimSlice(text: string, keep: char -> bool)
    ensures exists a: nat :: PaddedSlice(Keep(text, keep), Trim(Keep(text, keep)), a)
  {
    var kept := Keep(text, keep);
    TrimSpec(kept);
    var a := LeadingSpaces(kept);
    var r := Trim(kept);
    assert PaddedSlice(kept, r, a);
  }

  /**
    Filtering to a class and trimming leaves something exactly when a code unit of the
    class is not whitespace; what it leaves is trimmed and lies in the class.
   */
  lemma FilterTrimSpec(text: string, keep: char -> bool)
    ensures var r := Trim(Keep(text, keep));
      && (r != [] <==> HasVisible(text, keep))
      && Trimmed(r)
      && forall i :: 0 <= i < |r| ==> keep(r[i])
  {
    var kept := Keep(text, keep);
    TrimSpec(kept);
    KeepAllSpace(text, keep);
    TrimChars(kept, keep);
  }

  /** Trimming keeps only code units of the string it trims. */
  lemma TrimChars(s: string, keep: char -> bool)
    requires forall i :: 0 <= i < |s| ==> keep(s[i])
    ensures forall i :: 0 <= i < |Trim(s)| ==> keep(Trim(s)[i])
  {
    TrimIsSlice(s);
    var a := LeadingSpaces(s);
    forall i | 0 <= i < |Trim(s)| ensures keep(Trim(s)[i]) {
      assert Trim(s)[i] == s[a + i];
    }
  }

  /**
    A single CJK code unit is classified a word, yet the dictionary filter deletes it,
    so defining it opens nothing; translating it would open it.
   */
  lemma SingleCjkWordOpensNoDictionary(c: char)
    requires IsCjk(c)
    ensures Classify([c]) == Word
    ensures DictionaryTarget([c]) == None
    ensures TranslateTarget([c]) == Some(Navigation("translate", "sentence", [c]))
  {
    SingleCjkIsOneWord(c);
    assert !IsLookupChar([c][0]);
    assert IsTranslateChar(c) && !IsSpace(c);
    assert Keep([c], IsTranslateChar) == [c];
    TrimOfTrimmed([c]);
  }

  // ---------------------------------------------------------------------------
  // The store

  /** A point on the page, in CSS pixels. */
  datatype Position = Position(x: real, y: real)

  /** The message of the error thrown by `useTextSelection` outside a provider. */
  const MissingProviderMessage := "useTextSelection must be used within a TextSelectionProvider"

  /** The three state cells of `TextSelectionProvider`. */
  class SelectionStore {
    var selectedText: Option<string>
    var selectionPosition: Option<Position>
    var selectionType: Option<SelectionType>

    /** The cells are set together and cleared together, and the type is the text's class. */
    ghost predicate Valid()
      reads this
    {
      || (selectedText.None? && selectionPosition.None? && selectionType.None?)
      || (selectedText.Some? && selectionPosition.Some?
          && selectionType == Some(Classify(selectedText.value)))
    }

    predicate IsEmpty()
      reads this
    {
      selectedText.None? && selectionPosition.None? && selectionType.None?
    }

    constructor ()
      ensures Valid() && IsEmpty()
    {
      selectedText, selectionPosition, selectionType := None, None, None;
    }

    /** `showTooltip`: store the text verbatim, its position and its class, replacing what was there. */
    method ShowTooltip(text: string, x: real, y: real)
      modifies this
      ensures Valid()
      ensures selectedText == Some(text) && selectionPosition == Some(Position(x, y))
      ensures selectionType == Some(if CountWords(text) == 1 then Word else Phrase)
    {
      var wordCount := CountWords(text);
      var kind := if wordCount == 1 then Word else Phrase;
      selectedText := Some(text);
      selectionPosition := Some(Position(x, y));
      selectionType := Some(kind);
    }

    /** `hideTooltip`: clear all three cells; on an empty store this changes nothing. */
    method HideTooltip()
      modifies this
      ensures Valid() && IsEmpty()
      ensures old(IsEmpty()) ==> unchanged(this)
    {
      selectedText, selectionPosition, selectionType := None, None, None;
    }

    /** `lookupWord`: open the dictionary target, if there is one, and always hide. */
    method LookupWord(text: string) returns (navigation: Option<Navigation>)
      modifies this
      ensures navigation == DictionaryTarget(text)
      ensures Valid() && IsEmpty()
    {
      navigation := DictionaryTarget(text);
      HideTooltip();
    }

    /** `translatePhrase`: open the translation target, if there is one, and always hide. */
    method TranslatePhrase(text: string) returns (navigation: Option<Navigation>)
      modifies this
      ensures navigation == TranslateTarget(text)
      ensures Valid() && IsEmpty()
    {
      navigation := TranslateTarget(text);
      HideTooltip();
    }
  }

  /** `useTextSelection`: the store of the enclosing provider, or the missing-provider error. */
  function UseTextSelection(context: Option<SelectionStore>): (r: Result<SelectionStore, string>)
    ensures r.Success? <==> context.Some?
    ensures r.Success? ==> r.value == context.value
    ensures r.Failure? ==> r.error == MissingProviderMessage
  {
    match context
    case Some(store) => Success(store)
    case None => Failure(MissingProviderMessage)
  }
}
