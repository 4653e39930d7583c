/**
  The selection detector of a region of rendered text: it normalises and admits a
  selected string, reduces a settled browser selection to "hide" or "show", and
  debounces the gestures that may change the selection with one replaceable timer.
 */
module InteractiveText {
  import opened Wrappers
  import opened JsString
  import opened WordHoverProvider

  // ---------------------------------------------------------------------------
  // cleanText and isValidSelection

  /** `s.replace(/\s+/g, ' ')`: every maximal whitespace run becomes one space. */
  function CollapseSpaces(s: string): string
  {
    if s == [] then []
    else if !IsSpace(s[0]) then [s[0]] + CollapseSpaces(s[1..])
    else if |s| > 1 && IsSpace(s[1]) then CollapseSpaces(s[1..])
    else [' '] + CollapseSpaces(s[1..])
  }

  /** A code unit that is not `\s`. */
  predicate IsVisible(c: char) {
    !IsSpace(c)
  }

  /**
    `cleanText`: collapse whitespace runs to one space, then trim. The clean text is
    trimmed, uses only the plain space as whitespace, never two in a row, and is empty
    exactly when the text is all whitespace. It keeps every code unit that is not
    whitespace, in order, and only changes whitespace: text that is already clean is
    its own clean text.
   */
  function CleanText(text: string): (cleaned: string)
    ensures Trimmed(cleaned) && SpacesNormal(cleaned)
    ensures cleaned == [] <==> AllSpace(text)
    ensures Keep(cleaned, IsVisible) == Keep(text, IsVisible)
    ensures Trimmed(text) && SpacesNormal(text) ==> cleaned == text
    ensures SplitOnSpaceRuns(cleaned) == SplitOnSpaceRuns(Trim(text))
    ensures WordRuns(cleaned) == WordRuns(text)
  {
    var c := CollapseSpaces(text);
    CollapseIsNormal(text);
    TrimSpec(c);
    TrimIsSlice(c);
    SliceNormal(c, LeadingSpaces(c), LeadingSpaces(c) + |Trim(c)|);
    CollapseAllSpace(text);
    CollapseKeepsVisible(text);
    TrimKeepsVisible(c);
    CollapseTrimFixed(text);
    CollapseTrimCommute(text);
    CollapseKeepsPieces(Trim(text), []);
    TrimSpec(text);
    SplitWordRuns(Trim(c));
    SplitWordRuns(Trim(text));
    TrimWordRuns(text);
    Trim(c)
  }

  /** Collapsing and trimming change nothing in text that is trimmed and uses single spaces. */
  lemma CollapseTrimFixed(s: string)
    ensures Trimmed(s) && SpacesNormal(s) ==> Trim(CollapseSpaces(s)) == s
  {
    if Trimmed(s) && SpacesNormal(s) {
      CollapseFixed(s);
      TrimOfTrimmed(s);
    }
  }

  /** Collapsing whitespace keeps every visible code unit, in order. */
  lemma {:induction false} CollapseKeepsVisible(s: string)
    ensures Keep(CollapseSpaces(s), IsVisible) == Keep(s, IsVisible)
  {
    if s != [] {
      var t := s[1..];
      CollapseKeepsVisible(t);
      if !IsSpace(s[0]) {
        KeepAppend([s[0]], CollapseSpaces(t), IsVisible);
        assert Keep([s[0]], IsVisible) == [s[0]];
      } else if |s| > 1 && IsSpace(s[1]) {
      } else {
        KeepAppend([' '], CollapseSpaces(t), IsVisible);
        assert Keep([' '], IsVisible) == [];
      }
    }
  }

  /** Trimming removes only whitespace, so it keeps every visible code unit. */
  lemma TrimKeepsVisible(s: string)
    ensures Keep(Trim(s), IsVisible) == Keep(s, IsVisible)
  {
    TrimSpec(s);
    var a := LeadingSpaces(s);
    var r := Trim(s);
    var pre, post := s[..a], s[a + |r|..];
    KeepAppend(pre + r, post, IsVisible);
    KeepAppend(pre, r, IsVisible);
    KeepNone(pre, IsVisible);
    KeepNone(post, IsVisible);
  }

  /** The only whitespace is the plain space, and no two whitespace code units are adjacent. */
  predicate SpacesNormal(s: string)
  {
    forall i :: 0 <= i < |s| && IsSpace(s[i]) ==> s[i] == ' ' && (i + 1 < |s| ==> !IsSpace(s[i + 1]))
  }

  /**
    `isValidSelection`: the clean text has 1 to 100 code units, one of them not
    whitespace; so a selection is admitted exactly when it is not all whitespace and
    cleans to at most 100 code units.
   */
  predicate IsValidSelection(text: string)
    ensures IsValidSelection(text) <==> !AllSpace(text) && |CleanText(text)| <= 100
  {
    var cleaned := CleanText(text);
    assert cleaned != [] ==> !IsSpace(cleaned[0]);
    |cleaned| >= 1 && |cleaned| <= 100 && exists i :: 0 <= i < |cleaned| && !IsSpace(cleaned[i])
  }

  lemma CollapseKeepsFirst(s: string)
    requires s != [] && !IsSpace(s[0])
    ensures CollapseSpaces(s) != [] && CollapseSpaces(s)[0] == s[0]
  {
  }

  lemma {:induction false} CollapseIsNormal(s: string)
    ensures SpacesNormal(CollapseSpaces(s))
  {
    if s != [] {
      var t := s[1..];
      CollapseIsNormal(t);
      var c := CollapseSpaces(t);
      if !IsSpace(s[0]) {
        PrependNormal(s[0], c);
      } else if |s| > 1 && IsSpace(s[1]) {
      } else {
        if t != [] {
          assert t[0] == s[1];
          CollapseKeepsFirst(t);
        }
        PrependNormal(' ', c);
      }
    }
  }

  /** Putting `x` in front of a normal string keeps it normal, unless both would be whitespace. */
  lemma PrependNormal(x: char, c: string)
    requires SpacesNormal(c)
    requires IsSpace(x) ==> x == ' ' && (c != [] ==> !IsSpace(c[0]))
    ensures SpacesNormal([x] + c)
  {
    var r := [x] + c;
    forall i | 0 <= i < |r| && IsSpace(r[i]) ensures r[i] == ' ' && (i + 1 < |r| ==> !IsSpace(r[i + 1])) {
      if i > 0 {
        assert r[i] == c[i - 1];
        if i + 1 < |r| { assert r[i + 1] == c[i]; }
      } else if i + 1 < |r| {
        assert r[1] == c[0];
      }
    }
  }

  lemma SliceNormal(s: string, a: nat, b: nat)
    requires a <= b <= |s| && SpacesNormal(s)
    ensures SpacesNormal(s[a..b])
  {
    var r := s[a..b];
    forall i | 0 <= i < |r| && IsSpace(r[i]) ensures r[i] == ' ' && (i + 1 < |r| ==> !IsSpace(r[i + 1])) {
      assert r[i] == s[a + i];
      if i + 1 < |r| { assert r[i + 1] == s[a + i + 1]; }
    }
  }

  /** A normal string is its own collapse. */
  lemma {:induction false} CollapseFixed(s: string)
    requires SpacesNormal(s)
    ensures CollapseSpaces(s) == s
  {
    if s != [] {
      SliceNormal(s, 1, |s|);
      CollapseFixed(s[1..]);
      if IsSpace(s[0]) && |s| > 1 {
        assert !IsSpace(s[1]);
      }
    }
  }

  /** Collapsing leaves only whitespace exactly when there was only whitespace. */
  lemma {:induction false} CollapseAllSpace(s: string)
    ensures AllSpace(CollapseSpaces(s)) <==> AllSpace(s)
  {
    if s != [] {
      var t := s[1..];
      CollapseAllSpace(t);
      var c := CollapseSpaces(t);
      assert s == [s[0]] + t;
      AllSpaceAppend([s[0]], t);
      if !IsSpace(s[0]) {
        AllSpaceAppend([s[0]], c);
        assert !AllSpace([s[0]] + c) by { assert ([s[0]] + c)[0] == s[0]; }
      } else if |s| > 1 && IsSpace(s[1]) {
        assert CollapseSpaces(s) == c;
      } else {
        assert CollapseSpaces(s) == [' '] + c;
        AllSpaceAppend([' '], c);
      }
    }
  }

  /** A concatenation is all whitespace exactly when both parts are. */
  lemma AllSpaceAppend(x: string, y: string)
    ensures AllSpace(x + y) <==> AllSpace(x) && AllSpace(y)
  {
    var xy := x + y;
    if AllSpace(xy) {
      forall i | 0 <= i < |x| ensures IsSpace(x[i]) { assert x[i] == xy[i]; }
      forall i | 0 <= i < |y| ensures IsSpace(y[i]) { assert y[i] == xy[|x| + i]; }
    }
    if AllSpace(x) && AllSpace(y) {
      forall i | 0 <= i < |xy| ensures IsSpace(xy[i]) {
        if i < |x| { assert xy[i] == x[i]; } else { assert xy[i] == y[i - |x|]; }
      }
    }
  }

  /** Collapsing a non-empty whitespace run gives one space. */
  lemma {:induction false} CollapseOfSpaces(s: string)
    requires s != [] && AllSpace(s)
    ensures CollapseSpaces(s) == " "
  {
    if |s| > 1 {
      assert IsSpace(s[1]);
      assert AllSpace(s[1..]) by {
        forall i | 0 <= i < |s| - 1 ensures IsSpace(s[1..][i]) { assert s[1..][i] == s[i + 1]; }
      }
      CollapseOfSpaces(s[1..]);
    }
  }

  /** Collapsing distributes over a concatenation that does not join two whitespace runs. */
  lemma {:induction false} CollapseAppend(x: string, y: string)
    requires x == [] || y == [] || !IsSpace(x[|x| - 1]) || !IsSpace(y[0])
    ensures CollapseSpaces(x + y) == CollapseSpaces(x) + CollapseSpaces(y)
    decreases |x|
  {
    if x == [] {
      assert x + y == y;
    } else {
      var xy := x + y;
      assert xy[0] == x[0] && xy[1..] == x[1..] + y;
      if |x| > 1 {
        assert xy[1] == x[1] && x[1..][|x| - 2] == x[|x| - 1];
      } else if y != [] {
        assert xy[1] == y[0];
      }
      CollapseAppend(x[1..], y);
    }
  }

  /** The collapse of a trimmed, non-empty string is trimmed and non-empty. */
  lemma CollapseTrimmed(m: string)
    requires Trimmed(m) && m != []
    ensures Trimmed(CollapseSpaces(m)) && CollapseSpaces(m) != []
  {
    CollapseKeepsFirst(m);
    var init, last := m[..|m| - 1], m[|m| - 1];
    assert m == init + [last];
    CollapseAppend(init, [last]);
    assert CollapseSpaces([last]) == [last];
  }

  /** Collapsing and trimming commute. */
  lemma CollapseTrimCommute(s: string)
    ensures Trim(CollapseSpaces(s)) == CollapseSpaces(Trim(s))
  {
    TrimSpec(s);
    var a := LeadingSpaces(s);
    var m := Trim(s);
    var pre, post := s[..a], s[a + |m|..];
    CollapseAllSpace(s);
    CollapseAllSpace(pre);
    CollapseAllSpace(post);
    if m == [] {
      TrimSpec(CollapseSpaces(s));
    } else {
      CollapseAppend(pre, m);
      assert (pre + m)[|pre + m| - 1] == m[|m| - 1];
      CollapseAppend(pre + m, post);
      CollapseTrimmed(m);
      TrimPadded(CollapseSpaces(pre), CollapseSpaces(m), CollapseSpaces(post));
    }
  }

  /**
    Collapsing whitespace does not change the pieces `split(/\s+/)` cuts: a whitespace
    run of any length closes the piece in progress exactly as one space does.
   */
  lemma {:induction false} CollapseKeepsPieces(s: string, piece: string)
    ensures SplitFrom(CollapseSpaces(s), piece) == SplitFrom(s, piece)
    decreases |s|
  {
    if s != [] {
      var t := s[1..];
      var c := CollapseSpaces(s);
      if !IsSpace(s[0]) {
        assert c[0] == s[0] && c[1..] == CollapseSpaces(t);
        CollapseKeepsPieces(t, piece + [s[0]]);
      } else if |s| > 1 && IsSpace(s[1]) {
        CollapseKeepsPieces(t, piece);
      } else {
        if t != [] {
          CollapseKeepsFirst(t);
        }
        assert c[0] == ' ' && c[1..] == CollapseSpaces(t);
        CollapseKeepsPieces(t, []);
      }
    }
  }

  /** A trimmed string has one word run per piece of its split, and none when it is empty. */
  lemma SplitWordRuns(s: string)
    requires Trimmed(s)
    ensures WordRuns(s) == if s == [] then 0 else |SplitOnSpaceRuns(s)|
  {
    if s != [] {
      SplitCountsWordRuns(s);
    }
  }

  /** A line break between two words becomes one space, and surrounding whitespace goes. */
  lemma CleanLineBreak()
    ensures CleanText(" a\n\tb ") == "a b"
  {
    var text := " a\n\tb ";
    assert text[1..] == "a\n\tb " && text[2..] == "\n\tb " && text[3..] == "\tb ";
    assert text[4..] == "b " && text[5..] == " " && text[6..] == [];
    var c := CollapseSpaces(text);
    assert c == " a b ";
    assert c[1..] == "a b ";
    assert LeadingSpaces(c) == 1;
    assert c[1..][..3] == "a b";
  }

  /** Cleaning is idempotent. */
  lemma CleanTextIdempotent(text: string)
    ensures CleanText(CleanText(text)) == CleanText(text)
  {
    var r := CleanText(text);
    CollapseFixed(r);
    TrimOfTrimmed(r);
  }

  // ---------------------------------------------------------------------------
  // Evaluation of a settled selection

  /** The part of a `DOMRect` the placement uses. */
  datatype Rect = Rect(left: real, top: real, width: real)

  /**
    What `window.getSelection()` shows when the debounced evaluation runs: no selection
    object, or one with its range count, its text, whether the common ancestor of its
    first range lies inside the container, and that range's bounding rectangle.
   */
  datatype SelectionSnapshot =
    | NoSelection
    | Selection(rangeCount: nat, text: string, withinContainer: bool, bounds: Rect)

  /** What the evaluation asks of the store. */
  datatype Verdict = Hide | Show(text: string, x: real, y: real)

  /**
    The body of the 100 ms timer: hide unless there is a range, its text is a valid
    selection and the container (still mounted) contains it; otherwise show the clean
    text at the horizontal centre and top edge of the range.
   */
  function Evaluate(snapshot: SelectionSnapshot, containerMounted: bool): (v: Verdict)
    ensures v.Show? <==>
      && snapshot.Selection? && snapshot.rangeCount > 0 && IsValidSelection(snapshot.text)
      && containerMounted && snapshot.withinContainer
    ensures v.Show? ==>
      && v.text == CleanText(snapshot.text)
      && 1 <= |v.text| <= 100 && Trimmed(v.text) && !AllSpace(v.text)
      && v.x == snapshot.bounds.left + snapshot.bounds.width / 2.0
      && v.y == snapshot.bounds.top
  {
    if snapshot.NoSelection? || snapshot.rangeCount == 0 then Hide
    else if !IsValidSelection(snapshot.text) then Hide
    else if !containerMounted || !snapshot.withinContainer then Hide
    else
      var rect := snapshot.bounds;
      CleanTextIdempotent(snapshot.text);
      Show(CleanText(snapshot.text), rect.left + rect.width / 2.0, rect.top)
  }

  /**
    A valid selection that is already clean, such as `serendipity`, is shown exactly as
    it was selected.
   */
  lemma CleanSelectionShownAsIs(snapshot: SelectionSnapshot)
    requires snapshot.Selection? && snapshot.rangeCount > 0 && snapshot.withinContainer
    requires Trimmed(snapshot.text) && SpacesNormal(snapshot.text)
    requires 1 <= |snapshot.text| <= 100
    ensures Evaluate(snapshot, true).Show? && Evaluate(snapshot, true).text == snapshot.text
  {
    assert !IsSpace(snapshot.text[0]);
  }

  /** Once the container is unmounted every evaluation hides. */
  lemma UnmountedAlwaysHides(snapshot: SelectionSnapshot)
    ensures Evaluate(snapshot, false) == Hide
  {
  }

  // ---------------------------------------------------------------------------
  // Gestures and the debounce timer

  /** The fields of a `KeyboardEvent` the key-up filter reads. */
  datatype KeyEvent = KeyEvent(key: string, shiftKey: bool, ctrlKey: bool)

  predicate IsArrowKey(key: string) {
    key == "ArrowLeft" || key == "ArrowRight" || key == "ArrowUp" || key == "ArrowDown"
  }

  /** Shift held, an arrow key, or Ctrl+`a` may have changed the selection. */
  predicate TriggersSelectionCheck(event: KeyEvent) {
    event.shiftKey || IsArrowKey(event.key) || (event.ctrlKey && event.key == "a")
  }

  /** A scheduled callback: the 100 ms evaluation, or a 10 ms deferred `handleSelectionChange`. */
  datatype TimerTask = Evaluation | DeferredCheck

  /** `clearTimeout(selectionTimeoutRef.current)` when the ref holds an id: that timer is dropped. */
  function ClearTimeout(timers: map<nat, TimerTask>, timeout: Option<nat>): (r: map<nat, TimerTask>)
    ensures timeout.None? ==> r == timers
    ensures r.Keys == if timeout.Some? then timers.Keys - {timeout.value} else timers.Keys
    ensures forall id :: id in r ==> r[id] == timers[id]
  {
    if timeout.Some? then timers - {timeout.value} else timers
  }

  /**
    One mounted `InteractiveText`. `timers` holds the callbacks scheduled and not yet run
    or cleared, by timer id; `selectionTimeout` is `selectionTimeoutRef.current`, the id of
    the last evaluation armed (it is not reset when that timer runs).
   */
  class SelectionDetector {
    const store: SelectionStore
    var containerMounted: bool
    var listening: bool
    var selectionTimeout: Option<nat>
    var timers: map<nat, TimerTask>
    var nextTimerId: nat

    /** The ids of the evaluations that are still pending. */
    function PendingEvaluations(): set<nat>
      reads this
    {
      set id | id in timers && timers[id] == Evaluation
    }

    /** Ids are fresh, and every pending evaluation is the one `selectionTimeout` names. */
    ghost predicate Valid()
      reads this
    {
      && (forall id :: id in timers ==> id < nextTimerId)
      && (forall id :: id in timers && timers[id] == Evaluation ==> selectionTimeout == Some(id))
      && (selectionTimeout.Some? ==> selectionTimeout.value < nextTimerId)
      && (selectionTimeout.Some? && selectionTimeout.value in timers ==> timers[selectionTimeout.value] == Evaluation)
    }

    /** At most one evaluation is ever pending. */
    lemma AtMostOnePending()
      requires Valid()
      ensures |PendingEvaluations()| <= 1
      ensures selectionTimeout.None? ==> PendingEvaluations() == {}
      ensures selectionTimeout.Some? ==> PendingEvaluations() <= {selectionTimeout.value}
    {
      if PendingEvaluations() != {} {
        var p :| p in PendingEvaluations();
        assert PendingEvaluations() == {p};
      }
    }

    /** Mounting with a container: listeners attached, nothing scheduled. */
    constructor (store: SelectionStore)
      ensures Valid() && this.store == store
      ensures containerMounted && listening
      ensures selectionTimeout.None? && timers == map[] && PendingEvaluations() == {}
    {
      this.store := store;
      containerMounted, listening := true, true;
      selectionTimeout, timers, nextTimerId := None, map[], 0;
    }

    /** `handleSelectionChange`: clear the armed evaluation and arm a new one. */
    method HandleSelectionChange()
      requires Valid()
      modifies this
      ensures Valid()
      ensures timers == ClearTimeout(old(timers), old(selectionTimeout))[old(nextTimerId) := Evaluation]
      ensures selectionTimeout == Some(old(nextTimerId)) && nextTimerId == old(nextTimerId) + 1
      ensures PendingEvaluations() == {old(nextTimerId)}
      ensures forall id :: id in old(timers) && old(timers)[id] == DeferredCheck ==> id in timers && timers[id] == DeferredCheck
      ensures containerMounted == old(containerMounted) && listening == old(listening)
    {
      timers := ClearTimeout(timers, selectionTimeout);
      var id := nextTimerId;
      timers := timers[id := Evaluation];
      selectionTimeout := Some(id);
      nextTimerId := nextTimerId + 1;
    }

    /** Schedule a deferred `handleSelectionChange` (`setTimeout(handleSelectionChange, 10)`). */
    method ScheduleDeferredCheck()
      requires Valid()
      modifies this
      ensures Valid()
      ensures timers == old(timers)[old(nextTimerId) := DeferredCheck] && nextTimerId == old(nextTimerId) + 1
      ensures selectionTimeout == old(selectionTimeout) && PendingEvaluations() == old(PendingEvaluations())
      ensures containerMounted == old(containerMounted) && listening == old(listening)
    {
      timers := timers[nextTimerId := DeferredCheck];
      nextTimerId := nextTimerId + 1;
    }

    /** `mouseup` on the container, while the listener is attached. */
    method OnMouseUp()
      requires Valid()
      modifies this
      ensures Valid()
      ensures !old(listening) ==> unchanged(this)
      ensures old(listening) ==>
        timers == old(timers)[old(nextTimerId) := DeferredCheck] && nextTimerId == old(nextTimerId) + 1
      ensures selectionTimeout == old(selectionTimeout)
      ensures containerMounted == old(containerMounted) && listening == old(listening)
    {
      if listening {
        ScheduleDeferredCheck();
      }
    }

    /** `keyup` on the container: only a key that may change the selection schedules a check. */
    method OnKeyUp(event: KeyEvent)
      requires Valid()
      modifies this
      ensures Valid()
      ensures !(old(listening) && TriggersSelectionCheck(event)) ==> unchanged(this)
      ensures old(listening) && TriggersSelectionCheck(event) ==>
        timers == old(timers)[old(nextTimerId) := DeferredCheck] && nextTimerId == old(nextTimerId) + 1
      ensures selectionTimeout == old(selectionTimeout)
      ensures containerMounted == old(containerMounted) && listening == old(listening)
    {
      if listening && TriggersSelectionCheck(event) {
        ScheduleDeferredCheck();
      }
    }

    /** The document's `selectionchange`, while the listener is attached. */
    method OnDocumentSelectionChange()
      requires Valid()
      modifies this
      ensures Valid()
      ensures !old(listening) ==> unchanged(this)
      ensures old(listening) ==>
        && timers == ClearTimeout(old(timers), old(selectionTimeout))[old(nextTimerId) := Evaluation]
        && selectionTimeout == Some(old(nextTimerId)) && nextTimerId == old(nextTimerId) + 1
        && PendingEvaluations() == {old(nextTimerId)}
      ensures containerMounted == old(containerMounted) && listening == old(listening)
    {
      if listening {
        HandleSelectionChange();
      }
    }

    /**
      Timer `id` runs. A deferred check arms a new evaluation; an evaluation applies
      `Evaluate` to what the browser shows at that moment, so the store only ever
      receives a clean text of 1 to 100 code units.
     */
    method Fire(id: nat, snapshot: SelectionSnapshot)
      requires Valid() && id in timers
      modifies this, store
      ensures Valid()
      ensures old(timers[id]) == DeferredCheck ==>
        && timers == ClearTimeout(old(timers) - {id}, old(selectionTimeout))[old(nextTimerId) := Evaluation]
        && selectionTimeout == Some(old(nextTimerId)) && nextTimerId == old(nextTimerId) + 1
        && PendingEvaluations() == {old(nextTimerId)}
        && unchanged(store)
      ensures old(timers[id]) == Evaluation ==>
        && timers == old(timers) - {id}
        && selectionTimeout == old(selectionTimeout) && nextTimerId == old(nextTimerId)
        && PendingEvaluations() == {}
        && store.Valid()
        && match Evaluate(snapshot, containerMounted)
           case Hide => store.IsEmpty()
           case Show(text, x, y) =>
             && store.selectedText == Some(text) && store.selectionPosition == Some(Position(x, y))
             && store.selectionType == Some(Classify(text))
      ensures old(timers[id]) == Evaluation && store.selectedText.Some? ==>
        1 <= |store.selectedText.value| <= 100
      ensures containerMounted == old(containerMounted) && listening == old(listening)
    {
      var task := timers[id];
      timers := timers - {id};
      if task == DeferredCheck {
        HandleSelectionChange();
      } else {
        var verdict := Evaluate(snapshot, containerMounted);
        match verdict
        case Hide => store.HideTooltip();
        case Show(text, x, y) => store.ShowTooltip(text, x, y);
      }
    }

    /**
      Unmounting: the listeners are removed and the armed evaluation is cleared. Deferred
      checks already scheduled are not cleared; one that runs later arms an evaluation,
      which hides because the container is gone.
     */
    method Unmount()
      requires Valid()
      modifies this
      ensures Valid()
      ensures !containerMounted && !listening
      ensures timers == ClearTimeout(old(timers), old(selectionTimeout))
      ensures selectionTimeout == old(selectionTimeout) && nextTimerId == old(nextTimerId)
      ensures PendingEvaluations() == {}
      ensures forall id :: id in old(timers) && old(timers)[id] == DeferredCheck ==> id in timers && timers[id] == DeferredCheck
    {
      listening := false;
      containerMounted := false;
      timers := ClearTimeout(timers, selectionTimeout);
    }
  }
}
