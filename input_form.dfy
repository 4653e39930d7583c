/**
  The query form: it has no state of its own; it trims what it forwards, gates the
  Enter key and decides whether its buttons are enabled or shown.
 */
module InputForm {
  import opened Wrappers
  import opened JsString

  /** The `type` prop: a one-line word input or a multi-line sentence textarea. */
  datatype InputKind = WordInput | SentenceInput

  /** The arguments of one `onSubmit(input, language)` call. */
  datatype Submission = Submission(input: string, language: string)

  /** `handleSubmit`: forwards `value.trim()` when that is non-empty, otherwise nothing. */
  function FormSubmit(value: string, language: string): (sub: Option<Submission>)
    ensures sub.Some? <==> !AllSpace(value)
    ensures sub.Some? ==> sub.value == Submission(Trim(value), language)
    ensures sub.Some? ==> sub.value.input != [] && Trimmed(sub.value.input)
  {
    TrimSpec(value);
    var trimmed := Trim(value);
    if trimmed != [] then Some(Submission(trimmed, language)) else None
  }

  /** Submitting the text that was just forwarded forwards it unchanged. */
  lemma ResubmitIsStable(value: string, language: string)
    requires FormSubmit(value, language).Some?
    ensures FormSubmit(FormSubmit(value, language).value.input, language) == FormSubmit(value, language)
  {
    var input := FormSubmit(value, language).value.input;
    TrimOfTrimmed(input);
    TrimSpec(input);
  }

  /** What a key press in the textarea does: nothing, or cancel the default and run `handleSubmit`. */
  datatype KeyEffect = PassThrough | Intercept(submission: Option<Submission>)

  /** `handleKeyDown`: Enter submits, except Shift+Enter in the sentence textarea, which types a line break. */
  function KeyDown(kind: InputKind, key: string, shiftKey: bool, value: string, language: string): (effect: KeyEffect)
    ensures effect.Intercept? <==> key == "Enter" && (kind == WordInput || !shiftKey)
    ensures effect.Intercept? ==> effect.submission == FormSubmit(value, language)
  {
    if key == "Enter" then
      if kind == WordInput then Intercept(FormSubmit(value, language))
      else if !shiftKey then Intercept(FormSubmit(value, language))
      else PassThrough
    else PassThrough
  }

  /** An intercepted Enter submits exactly when the submit button is enabled and nothing is loading. */
  lemma EnterSubmitsIffEnabled(kind: InputKind, shiftKey: bool, value: string, language: string)
    requires KeyDown(kind, "Enter", shiftKey, value, language).Intercept?
    ensures KeyDown(kind, "Enter", shiftKey, value, language).submission.Some? <==> !SubmitDisabled(value, false)
  {
  }

  /** `disabled={!value.trim() || loading}`. */
  function SubmitDisabled(value: string, loading: bool): (disabled: bool)
    ensures disabled <==> loading || AllSpace(value)
    ensures !disabled ==> FormSubmit(value, "").Some?
  {
    TrimSpec(value);
    Trim(value) == [] || loading
  }

  /** `{value && <button .../>}`: the clear button exists only for a non-empty value. */
  predicate ClearButtonVisible(value: string) {
    value != []
  }

  /** `clearInput`: the value passed to `onInputChange`. */
  function ClearInput(): (value: string)
    ensures value == []
    ensures !ClearButtonVisible(value) && SubmitDisabled(value, false)
  {
    []
  }

  /** The submit button's caption key. */
  function ButtonLabelKey(loading: bool): (key: string)
    ensures key == "processing" <==> loading
    ensures key == "submit" <==> !loading
  {
    if loading then "processing" else "submit"
  }
}
