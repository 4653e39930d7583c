/**
  The answer panel: the clean-up applied to an answer before it is rendered or copied,
  which of the four panels shows, the header per tab and the copy button's flag.
 */
module ResponseArea {
  import opened Wrappers
  import opened JsString

  /**
    `s.replace(/pattern/g, replacement)` for a literal pattern: matches are found left to
    right and do not overlap; the scan resumes after each replaced match.
   */
  function ReplaceAll(s: string, pattern: string, replacement: string): string
    requires pattern != []
    decreases |s|
  {
    if s == [] then []
    else if |pattern| <= |s| && s[..|pattern|] == pattern then
      replacement + ReplaceAll(s[|pattern|..], pattern, replacement)
    else [s[0]] + ReplaceAll(s[1..], pattern, replacement)
  }

  /** Replacing a pattern by itself changes nothing: the `\n\n` to `\n\n` step is the identity. */
  lemma {:induction false} ReplaceBySelf(s: string, pattern: string)
    requires pattern != []
    ensures ReplaceAll(s, pattern, pattern) == s
    decreases |s|
  {
    if s == [] {
    } else if |pattern| <= |s| && s[..|pattern|] == pattern {
      ReplaceBySelf(s[|pattern|..], pattern);
      assert s == s[..|pattern|] + s[|pattern|..];
    } else {
      ReplaceBySelf(s[1..], pattern);
      assert s == [s[0]] + s[1..];
    }
  }

  /** A backslash followed by `n`: the two characters a JSON-escaped line break leaves behind. */
  const EscapedNewline := "\\n"

  /** No character `a` is directly followed by a character `b`. */
  predicate NoPair(s: string, a: char, b: char) {
    forall i :: 0 <= i < |s| - 1 ==> !(s[i] == a && s[i + 1] == b)
  }

  /** `.replace(/\\n/g, '\n')`. */
  function UnescapeNewlines(s: string): string {
    ReplaceAll(s, EscapedNewline, "\n")
  }

  /** One step of the unescape scan, unfolded. */
  lemma UnescapeStep(s: string)
    requires s != []
    ensures |s| >= 2 && s[0] == '\\' && s[1] == 'n' ==> UnescapeNewlines(s) == "\n" + UnescapeNewlines(s[2..])
    ensures !(|s| >= 2 && s[0] == '\\' && s[1] == 'n') ==> UnescapeNewlines(s) == [s[0]] + UnescapeNewlines(s[1..])
  {
    if |s| >= 2 && s[0] == '\\' && s[1] == 'n' {
      assert s[..2] == EscapedNewline;
    } else if |s| >= 2 {
      assert s[..2] != EscapedNewline by { assert !(s[..2][0] == '\\' && s[..2][1] == 'n'); }
    }
  }

  /** The unescaped text is empty only for empty input and starts like its input, except that a leading `\n` pair becomes a line break. */
  lemma UnescapeHead(s: string)
    requires s != []
    ensures UnescapeNewlines(s) != []
    ensures UnescapeNewlines(s)[0] == if |s| >= 2 && s[0] == '\\' && s[1] == 'n' then '\n' else s[0]
  {
    UnescapeStep(s);
  }

  lemma NoPairConcat(x: string, y: string, a: char, b: char)
    requires NoPair(x, a, b) && NoPair(y, a, b)
    requires x != [] && y != [] ==> !(x[|x| - 1] == a && y[0] == b)
    ensures NoPair(x + y, a, b)
  {
    var xy := x + y;
    forall i | 0 <= i < |xy| - 1
      ensures !(xy[i] == a && xy[i + 1] == b)
    {
      if i + 1 < |x| {
        assert xy[i] == x[i] && xy[i + 1] == x[i + 1];
      } else if i >= |x| {
        assert xy[i] == y[i - |x|] && xy[i + 1] == y[i - |x| + 1];
      }
    }
  }

  /** After the first replace, no backslash is followed by `n`. */
  lemma {:induction false} UnescapeLeavesNoPair(s: string)
    ensures NoPair(UnescapeNewlines(s), '\\', 'n')
    decreases |s|
  {
    if s != [] {
      UnescapeStep(s);
      if |s| >= 2 && s[0] == '\\' && s[1] == 'n' {
        UnescapeLeavesNoPair(s[2..]);
        NoPairConcat("\n", UnescapeNewlines(s[2..]), '\\', 'n');
      } else {
        UnescapeLeavesNoPair(s[1..]);
        if s[1..] != [] {
          UnescapeHead(s[1..]);
        }
        NoPairConcat([s[0]], UnescapeNewlines(s[1..]), '\\', 'n');
      }
    }
  }

  /** Text without the pair goes through the first replace unchanged. */
  lemma {:induction false} UnescapeWithoutPair(s: string)
    requires NoPair(s, '\\', 'n')
    ensures UnescapeNewlines(s) == s
    decreases |s|
  {
    if s != [] {
      UnescapeStep(s);
      assert NoPair(s[1..], '\\', 'n') by {
        forall i | 0 <= i < |s[1..]| - 1 ensures !(s[1..][i] == '\\' && s[1..][i + 1] == 'n') {
          assert s[1..][i] == s[i + 1] && s[1..][i + 1] == s[i + 2];
        }
      }
      UnescapeWithoutPair(s[1..]);
      assert s == [s[0]] + s[1..];
    }
  }

  /** `.replace(/\n-\s/g, '\n- ')`: a line break, a dash and any whitespace become a line break, a dash and a space. */
  function NormalizeBullets(s: string): (r: string)
    ensures |r| == |s|
    decreases |s|
  {
    if |s| >= 3 && s[0] == '\n' && s[1] == '-' && IsSpace(s[2]) then "\n- " + NormalizeBullets(s[3..])
    else if s == [] then []
    else [s[0]] + NormalizeBullets(s[1..])
  }

  /**
    The bullet step never moves a character, and the only code units it changes are
    whitespace directly after a line break and a dash, which become a space.
   */
  lemma {:induction false} NormalizeRespaces(s: string)
    ensures forall i :: 0 <= i < |s| ==>
      NormalizeBullets(s)[i] == s[i] || (IsSpace(s[i]) && NormalizeBullets(s)[i] == ' ')
    ensures forall i :: 0 <= i < |s| && NormalizeBullets(s)[i] != s[i] ==>
      2 <= i && s[i - 2] == '\n' && s[i - 1] == '-'
    decreases |s|
  {
    var r := NormalizeBullets(s);
    if |s| >= 3 && s[0] == '\n' && s[1] == '-' && IsSpace(s[2]) {
      var rest := NormalizeBullets(s[3..]);
      NormalizeRespaces(s[3..]);
      forall i | 3 <= i < |s|
        ensures r[i] == s[i] || (IsSpace(s[i]) && r[i] == ' ')
        ensures r[i] != s[i] ==> s[i - 2] == '\n' && s[i - 1] == '-'
      {
        assert r[i] == rest[i - 3] && s[i] == s[3..][i - 3];
        if r[i] != s[i] {
          assert s[3..][i - 5] == s[i - 2] && s[3..][i - 4] == s[i - 1];
        }
      }
    } else if s != [] {
      var rest := NormalizeBullets(s[1..]);
      NormalizeRespaces(s[1..]);
      forall i | 1 <= i < |s|
        ensures r[i] == s[i] || (IsSpace(s[i]) && r[i] == ' ')
        ensures r[i] != s[i] ==> 2 <= i && s[i - 2] == '\n' && s[i - 1] == '-'
      {
        assert r[i] == rest[i - 1] && s[i] == s[1..][i - 1];
        if r[i] != s[i] {
          assert s[1..][i - 3] == s[i - 2] && s[1..][i - 2] == s[i - 1];
        }
      }
    }
  }

  /** The first two characters come through the bullet step unchanged. */
  lemma NormalizeHead(s: string)
    ensures |s| >= 1 ==> NormalizeBullets(s)[0] == s[0]
    ensures |s| >= 2 ==> NormalizeBullets(s)[1] == s[1]
  {
    if |s| >= 2 && !(|s| >= 3 && s[0] == '\n' && s[1] == '-' && IsSpace(s[2])) {
      assert NormalizeBullets(s)[1] == NormalizeBullets(s[1..])[0];
      assert NormalizeBullets(s[1..])[0] == s[1..][0];
    }
  }

  /** Every line break, dash and whitespace triple already has a plain space as its third character. */
  predicate BulletsNormal(s: string) {
    forall i :: 0 <= i < |s| - 2 && s[i] == '\n' && s[i + 1] == '-' && IsSpace(s[i + 2]) ==> s[i + 2] == ' '
  }

  /** After the bullet step, every bullet is a line break, a dash and a space. */
  lemma {:induction false} NormalizeIsNormal(s: string)
    ensures BulletsNormal(NormalizeBullets(s))
    decreases |s|
  {
    var r := NormalizeBullets(s);
    if |s| >= 3 && s[0] == '\n' && s[1] == '-' && IsSpace(s[2]) {
      NormalizeIsNormal(s[3..]);
      var rest := NormalizeBullets(s[3..]);
      forall i | 0 <= i < |r| - 2 && r[i] == '\n' && r[i + 1] == '-' && IsSpace(r[i + 2])
        ensures r[i + 2] == ' '
      {
        if i >= 3 {
          assert r[i] == rest[i - 3] && r[i + 1] == rest[i - 2] && r[i + 2] == rest[i - 1];
        }
      }
    } else if s != [] {
      NormalizeIsNormal(s[1..]);
      var rest := NormalizeBullets(s[1..]);
      NormalizeHead(s);
      NormalizeHead(s[1..]);
      if |s| >= 3 {
        assert r[2] == rest[1] == s[2];
      }
      forall i | 0 <= i < |r| - 2 && r[i] == '\n' && r[i + 1] == '-' && IsSpace(r[i + 2])
        ensures r[i + 2] == ' '
      {
        if i > 0 {
          assert r[i] == rest[i - 1] && r[i + 1] == rest[i] && r[i + 2] == rest[i + 1];
        }
      }
    }
  }

  /** Text whose bullets are already normal goes through the bullet step unchanged. */
  lemma {:induction false} NormalizeFixed(s: string)
    requires BulletsNormal(s)
    ensures NormalizeBullets(s) == s
    decreases |s|
  {
    if |s| >= 3 && s[0] == '\n' && s[1] == '-' && IsSpace(s[2]) {
      assert s[..3] == "\n- ";
      BulletsNormalSlice(s, 3, |s|);
      NormalizeFixed(s[3..]);
      assert s == s[..3] + s[3..];
    } else if s != [] {
      BulletsNormalSlice(s, 1, |s|);
      NormalizeFixed(s[1..]);
      assert s == [s[0]] + s[1..];
    }
  }

  lemma BulletsNormalSlice(s: string, lo: nat, hi: nat)
    requires lo <= hi <= |s| && BulletsNormal(s)
    ensures BulletsNormal(s[lo..hi])
  {
    var t := s[lo..hi];
    forall i | 0 <= i < |t| - 2 && t[i] == '\n' && t[i + 1] == '-' && IsSpace(t[i + 2])
      ensures t[i + 2] == ' '
    {
      assert t[i] == s[lo + i] && t[i + 1] == s[lo + i + 1] && t[i + 2] == s[lo + i + 2];
    }
  }

  lemma NoPairSlice(s: string, lo: nat, hi: nat, a: char, b: char)
    requires lo <= hi <= |s| && NoPair(s, a, b)
    ensures NoPair(s[lo..hi], a, b)
  {
    var t := s[lo..hi];
    forall i | 0 <= i < |t| - 1 ensures !(t[i] == a && t[i + 1] == b) {
      assert t[i] == s[lo + i] && t[i + 1] == s[lo + i + 1];
    }
  }

  /** The bullet step cannot create a backslash-`n` pair: it only writes spaces. */
  lemma NormalizeKeepsNoPair(s: string)
    requires NoPair(s, '\\', 'n')
    ensures NoPair(NormalizeBullets(s), '\\', 'n')
  {
    NormalizeRespaces(s);
    var r := NormalizeBullets(s);
    forall i | 0 <= i < |r| - 1 ensures !(r[i] == '\\' && r[i + 1] == 'n') {
      assert r[i] == s[i] || r[i] == ' ';
      assert r[i + 1] == s[i + 1] || r[i + 1] == ' ';
    }
  }

  /**
    `processContent`: unescape line breaks, the identity step, normalise bullets, trim.
    The processed answer has no surrounding whitespace, no backslash-`n` pair left and
    only normal bullets.
   */
  function ProcessContent(raw: string): (content: string)
    ensures Trimmed(content)
    ensures NoPair(content, '\\', 'n')
    ensures BulletsNormal(content)
    ensures Trimmed(raw) && NoPair(raw, '\\', 'n') && BulletsNormal(raw) ==> content == raw
  {
    ProcessFixed(raw);
    var u := UnescapeNewlines(raw);
    ReplaceBySelf(u, "\n\n");
    UnescapeLeavesNoPair(raw);
    NormalizeKeepsNoPair(u);
    NormalizeIsNormal(u);
    TrimSliceKeeps(NormalizeBullets(u));
    Trim(NormalizeBullets(ReplaceAll(u, "\n\n", "\n\n")))
  }

  /** The text the bullet step receives: the unescaped answer, since the second replace is the identity. */
  lemma ProcessContentStages(raw: string)
    ensures ProcessContent(raw) == Trim(NormalizeBullets(UnescapeNewlines(raw)))
  {
    ReplaceBySelf(UnescapeNewlines(raw), "\n\n");
  }

  /** Trimming keeps both properties: the trimmed text is a slice. */
  lemma TrimSliceKeeps(n: string)
    ensures Trimmed(Trim(n))
    ensures NoPair(n, '\\', 'n') ==> NoPair(Trim(n), '\\', 'n')
    ensures BulletsNormal(n) ==> BulletsNormal(Trim(n))
  {
    TrimmedTrim(n);
    TrimIsSlice(n);
    var a := LeadingSpaces(n);
    var r := Trim(n);
    if NoPair(n, '\\', 'n') {
      NoPairSlice(n, a, a + |r|, '\\', 'n');
    }
    if BulletsNormal(n) {
      BulletsNormalSlice(n, a, a + |r|);
    }
  }

  /** Every stage leaves an answer alone that is trimmed and has no pair and only normal bullets. */
  lemma ProcessFixed(raw: string)
    ensures Trimmed(raw) && NoPair(raw, '\\', 'n') && BulletsNormal(raw) ==>
      Trim(NormalizeBullets(ReplaceAll(UnescapeNewlines(raw), "\n\n", "\n\n"))) == raw
  {
    if Trimmed(raw) && NoPair(raw, '\\', 'n') && BulletsNormal(raw) {
      UnescapeWithoutPair(raw);
      ReplaceBySelf(raw, "\n\n");
      NormalizeFixed(raw);
      TrimOfTrimmed(raw);
    }
  }

  /** Processing an answer twice gives what processing it once gives. */
  lemma ProcessContentIdempotent(raw: string)
    ensures ProcessContent(ProcessContent(raw)) == ProcessContent(raw)
  {
    var c := ProcessContent(raw);
    assert Trimmed(c) && NoPair(c, '\\', 'n') && BulletsNormal(c);
  }

  /** The translation key of the panel header. */
  function HeaderKey(tab: string): (key: string)
    ensures tab == "dictionary" ==> key == "wordInformation"
    ensures tab == "correction" ==> key == "correction"
    ensures key == "analysis" <==> tab != "dictionary" && tab != "correction"
  {
    match tab
    case "dictionary" => "wordInformation"
    case "analyse" => "analysis"
    case "correction" => "correction"
    case _ => "analysis"
  }

  /** The four panels, in the order they take precedence. */
  datatype ResponseView =
    | Spinner
    | ErrorBox(message: string)
    | GetStarted(message: string)
    | Answer(header: string, markdown: string, copyCaption: string)

  /** The panel for the tab's state: loading beats an error, an error beats an empty answer. */
  function View(content: string, loading: bool, error: Option<string>, tab: string, copied: bool,
                t: string -> string): (view: ResponseView)
    ensures view.Spinner? <==> loading
    ensures view.ErrorBox? <==> !loading && error.Some? && error.value != ""
    ensures view.ErrorBox? ==> view.message == error.value
    ensures view.GetStarted? <==> !loading && (error.None? || error.value == "") && content == ""
    ensures view.GetStarted? ==> view.message == t("getStartedMessage")
    ensures view.Answer? ==>
      && content != ""
      && view.header == t(HeaderKey(tab))
      && view.markdown == ProcessContent(content)
      && view.copyCaption == t(if copied then "copied" else "copy")
  {
    if loading then Spinner
    else if error.Some? && error.value != "" then ErrorBox(error.value)
    else if content == "" then GetStarted(t("getStartedMessage"))
    else Answer(t(HeaderKey(tab)), ProcessContent(content), t(if copied then "copied" else "copy"))
  }

  /** The copy button's `copied` flag and the 2000 ms timers that clear it. */
  class CopyButton {
    var copied: bool
    /** Reset timers started and not yet fired; none is ever cancelled. */
    var pendingResets: nat

    /** A shown `copied` caption always has a reset on its way. */
    ghost predicate Valid()
      reads this
    {
      copied ==> pendingResets > 0
    }

    constructor ()
      ensures !copied && pendingResets == 0 && Valid()
    {
      copied := false;
      pendingResets := 0;
    }

    /**
      `copyToClipboard`: the clipboard is always offered the processed answer; only when it
      accepts does the flag go up and a reset start.
     */
    method CopyToClipboard(content: string, clipboardAccepts: bool) returns (payload: string)
      requires Valid()
      modifies this
      ensures Valid()
      ensures payload == ProcessContent(content) && Trimmed(payload)
      ensures clipboardAccepts ==> copied && pendingResets == old(pendingResets) + 1
      ensures !clipboardAccepts ==> copied == old(copied) && pendingResets == old(pendingResets)
    {
      payload := ProcessContent(content);
      if clipboardAccepts {
        copied := true;
        pendingResets := pendingResets + 1;
      }
    }

    /** A reset timer fires: the flag goes down even if a later copy is still counting. */
    method ResetFires()
      requires Valid() && pendingResets > 0
      modifies this
      ensures Valid()
      ensures !copied && pendingResets == old(pendingResets) - 1
    {
      copied := false;
      pendingResets := pendingResets - 1;
    }
  }
}
