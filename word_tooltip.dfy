/**
  The floating tooltip over the current selection: whether it renders, what it shows,
  which action its button runs, and the three gestures that dismiss it.
 */
module WordTooltip {
  import opened Wrappers
  import opened WordHoverProvider
  import opened InteractiveText

  /** `selectedText` as a JavaScript condition: `null` and `''` are false. */
  predicate Truthy(text: Option<string>) {
    text.Some? && text.value != []
  }

  /** The render guard: text, position and type must all be present. */
  predicate Renders(text: Option<string>, position: Option<Position>, kind: Option<SelectionType>) {
    Truthy(text) && position.Some? && kind.Some?
  }

  /** Longer selections are cut to this many code units for display. */
  const DisplayLimit: nat := 30

  /** How far above the selection's top edge the tooltip is placed, in pixels. */
  const VerticalOffset: real := 70.0

  /** The quoted text: unchanged up to 30 code units, else its first 30 followed by `...`. */
  function DisplayText(text: string): (shown: string)
    ensures |shown| <= DisplayLimit + 3
    ensures |text| <= DisplayLimit ==> shown == text
    ensures |text| > DisplayLimit ==>
      && |shown| == DisplayLimit + 3
      && shown[..DisplayLimit] == text[..DisplayLimit]
      && shown[DisplayLimit..] == "..."
  {
    if |text| > DisplayLimit then text[..DisplayLimit] + "..." else text
  }

  /** The button label. */
  function ActionLabel(kind: SelectionType): (caption: string)
    ensures caption == "Define in Dictionary" <==> kind == Word
    ensures kind == Phrase ==> caption == "Translate"
  {
    if kind == Word then "Define in Dictionary" else "Translate"
  }

  /** What the button opens: a word is looked up in the dictionary, anything else translated. */
  function ActionTarget(text: string, kind: SelectionType): (nav: Option<Navigation>)
    ensures kind == Word ==> nav == DictionaryTarget(text)
    ensures kind == Phrase ==> nav == TranslateTarget(text)
    ensures nav.Some? ==> nav.value.text != [] && nav.value.tab == (if kind == Word then "dictionary" else "translate")
  {
    if kind == Word then DictionaryTarget(text) else TranslateTarget(text)
  }

  /** The rendered tooltip: quoted text, button label and the `left`/`top` style. */
  datatype TooltipView = TooltipView(displayText: string, actionLabel: string, left: real, top: real)

  function View(text: Option<string>, position: Option<Position>, kind: Option<SelectionType>): (view: Option<TooltipView>)
    ensures view.Some? <==> Renders(text, position, kind)
    ensures view.Some? ==>
      && |view.value.displayText| <= DisplayLimit + 3
      && view.value.left == position.value.x
      && view.value.top + VerticalOffset == position.value.y
      && (view.value.actionLabel == "Define in Dictionary" <==> kind.value == Word)
    ensures view.Some? ==>
      view.value.displayText == DisplayText(text.value) && view.value.actionLabel == ActionLabel(kind.value)
  {
    if Renders(text, position, kind) then
      Some(TooltipView(DisplayText(text.value), ActionLabel(kind.value),
        position.value.x, position.value.y - VerticalOffset))
    else None
  }

  /** `TextSelectionTooltip` over a store, with the document listeners of its effect. */
  class TooltipPresenter {
    const store: SelectionStore
    /** The `mousedown`, `keydown` and `selectionchange` listeners are attached. */
    var listening: bool

    predicate Rendered()
      reads store
    {
      Renders(store.selectedText, store.selectionPosition, store.selectionType)
    }

    constructor (store: SelectionStore)
      ensures this.store == store && !listening
    {
      this.store := store;
      listening := false;
    }

    /**
      The effect keyed on `selectedText`: its clean-up removes all three listeners, and it
      attaches them again only when the text is non-empty.
     */
    method SyncListeners()
      modifies this
      ensures listening == Truthy(store.selectedText)
    {
      listening := Truthy(store.selectedText);
    }

    /** A `mousedown` anywhere: outside the rendered tooltip it hides the selection. */
    method OnMouseDown(insideTooltip: bool)
      requires store.Valid()
      modifies store
      ensures store.Valid()
      ensures old(listening && Rendered()) && !insideTooltip ==> store.IsEmpty()
      ensures !(old(listening && Rendered()) && !insideTooltip) ==> unchanged(store)
    {
      if listening && Rendered() && !insideTooltip {
        store.HideTooltip();
      }
    }

    /** A `keydown` anywhere: `Escape` hides; any other key, or no active selection, changes nothing. */
    method OnKeyDown(key: string)
      requires store.Valid()
      modifies store
      ensures store.Valid()
      ensures old(listening) && key == "Escape" ==> store.IsEmpty()
      ensures !(old(listening) && key == "Escape") ==> unchanged(store)
      ensures old(store.IsEmpty()) ==> unchanged(store)
    {
      if listening && key == "Escape" {
        store.HideTooltip();
      }
    }

    /** A `selectionchange`: a selection with no range left hides the tooltip. */
    method OnSelectionChange(snapshot: SelectionSnapshot)
      requires store.Valid()
      modifies store
      ensures store.Valid()
      ensures old(listening) && (snapshot.NoSelection? || snapshot.rangeCount == 0) ==> store.IsEmpty()
      ensures !(old(listening) && (snapshot.NoSelection? || snapshot.rangeCount == 0)) ==> unchanged(store)
    {
      if listening && (snapshot.NoSelection? || snapshot.rangeCount == 0) {
        store.HideTooltip();
      }
    }

    /** The close button. */
    method Close()
      requires store.Valid() && Rendered()
      modifies store
      ensures store.Valid() && store.IsEmpty()
    {
      store.HideTooltip();
    }

    /** `handleAction`: look the word up or translate the phrase; the store then hides. */
    method HandleAction() returns (navigation: Option<Navigation>)
      requires store.Valid() && Rendered()
      modifies store
      ensures navigation == ActionTarget(old(store.selectedText.value), old(store.selectionType.value))
      ensures store.Valid() && store.IsEmpty()
    {
      var text := store.selectedText.value;
      if store.selectionType.value == Word {
        navigation := store.LookupWord(text);
      } else {
        navigation := store.TranslatePhrase(text);
      }
    }
  }
}
