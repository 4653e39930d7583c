/**
  The JavaScript string primitives the components are built from: the `\s` and `\w`
  classes of regular expressions written without the `u` flag, the CJK ranges the
  selection code matches, `String.prototype.trim`, `replace(/[^...]/g, '')` (keeping
  one character class) and `split(/\s+/)`.

  A `char` stands for one UTF-16 code unit, which is what those regular expressions
  and `length` see.
 */
module JsString {

  /** `\s`: the WhiteSpace and LineTerminator code units. `trim` removes exactly these. */
  predicate IsSpace(c: char) {
    || c == '\t' || c == '\n' || c == '\U{000B}' || c == '\U{000C}' || c == '\r' || c == ' '
    || c == '\U{00A0}' || c == '\U{1680}' || ('\U{2000}' <= c <= '\U{200A}')
    || c == '\U{2028}' || c == '\U{2029}' || c == '\U{202F}' || c == '\U{205F}'
    || c == '\U{3000}' || c == '\U{FEFF}'
  }

  /** `\w` without the `u` flag: ASCII letters, digits and the underscore. */
  predicate IsWordChar(c: char) {
    ('a' <= c <= 'z') || ('A' <= c <= 'Z') || ('0' <= c <= '9') || c == '_'
  }

  /**
    The class `[一-鿿㐀-䶿぀-ゟ゠-ヿ가-힯]`:
    CJK ideographs, CJK extension A, Hiragana, Katakana and Hangul syllables.
   */
  predicate IsCjk(c: char) {
    || ('\U{4E00}' <= c <= '\U{9FFF}') || ('\U{3400}' <= c <= '\U{4DBF}')
    || ('\U{3040}' <= c <= '\U{309F}') || ('\U{30A0}' <= c <= '\U{30FF}')
    || ('\U{AC00}' <= c <= '\U{D7AF}')
  }

  predicate AllSpace(s: string) {
    forall i :: 0 <= i < |s| ==> IsSpace(s[i])
  }

  /** `s` has no leading and no trailing whitespace. */
  predicate Trimmed(s: string) {
    s == [] || (!IsSpace(s[0]) && !IsSpace(s[|s| - 1]))
  }

  /**
    `s.replace(/[^K]/g, '')` for a character class K given as `keep`: the code units
    of `s` that belong to the class, in their original order.
   */
  function Keep(s: string, keep: char -> bool): (r: string)
    ensures |r| <= |s|
    ensures forall i :: 0 <= i < |r| ==> keep(r[i])
  {
    if s == [] then [] else (if keep(s[0]) then [s[0]] else []) + Keep(s[1..], keep)
  }

  /** Number of whitespace code units at the start of `s`. */
  function LeadingSpaces(s: string): nat
    ensures LeadingSpaces(s) <= |s|
  {
    if s != [] && IsSpace(s[0]) then 1 + LeadingSpaces(s[1..]) else 0
  }

  /** Number of whitespace code units at the end of `s`. */
  function TrailingSpaces(s: string): nat
    ensures TrailingSpaces(s) <= |s|
  {
    if s != [] && IsSpace(s[|s| - 1]) then 1 + TrailingSpaces(s[..|s| - 1]) else 0
  }

  /** `s.trim()`: `s` without its leading and trailing whitespace (see `TrimSpec`). */
  function Trim(s: string): (r: string)
    ensures |r| <= |s|
  {
    var t := s[LeadingSpaces(s)..];
    t[..|t| - TrailingSpaces(t)]
  }

  /** 1 when a run of non-whitespace code units ends at the first code unit of `s`, else 0. */
  function WordEndsHere(s: string): nat
    requires s != []
  {
    if !IsSpace(s[0]) && (|s| == 1 || IsSpace(s[1])) then 1 else 0
  }

  /** 1 when a whitespace run ends at the first code unit of `s`, else 0. */
  function SpaceEndsHere(s: string): nat
    requires s != []
  {
    if IsSpace(s[0]) && (|s| == 1 || !IsSpace(s[1])) then 1 else 0
  }

  /** Number of maximal runs of non-whitespace code units: the words of `s`. */
  function WordRuns(s: string): nat
  {
    if s == [] then 0 else WordEndsHere(s) + WordRuns(s[1..])
  }

  /** Number of maximal whitespace runs of `s`. */
  function SpaceRuns(s: string): nat
  {
    if s == [] then 0 else SpaceEndsHere(s) + SpaceRuns(s[1..])
  }

  /**
    `s.split(/\s+/)`: the pieces of `s` between its maximal whitespace runs. A leading
    or trailing run yields an empty first or last piece, as in JavaScript, and the
    empty string yields one empty piece.
   */
  function SplitOnSpaceRuns(s: string): seq<string>
  {
    SplitFrom(s, [])
  }

  /**
    The pieces of `s` when the piece in progress already holds `piece`: every code unit
    that is not whitespace extends it, and the last code unit of a whitespace run closes it.
   */
  function SplitFrom(s: string, piece: string): seq<string>
    decreases |s|
  {
    if s == [] then [piece]
    else if !IsSpace(s[0]) then SplitFrom(s[1..], piece + [s[0]])
    else if |s| > 1 && IsSpace(s[1]) then SplitFrom(s[1..], piece)
    else [piece] + SplitFrom(s[1..], [])
  }

  // ---------------------------------------------------------------------------
  // Keep

  lemma {:induction false} KeepAll(s: string, keep: char -> bool)
    requires forall i :: 0 <= i < |s| ==> keep(s[i])
    ensures Keep(s, keep) == s
  {
    if s != [] {
      assert keep(s[0]);
      KeepAll(s[1..], keep);
    }
  }

  lemma {:induction false} KeepNone(s: string, keep: char -> bool)
    requires forall i :: 0 <= i < |s| ==> !keep(s[i])
    ensures Keep(s, keep) == []
  {
    if s != [] {
      assert !keep(s[0]);
      KeepNone(s[1..], keep);
    }
  }

  lemma {:induction false} KeepAppend(a: string, b: string, keep: char -> bool)
    ensures Keep(a + b, keep) == Keep(a, keep) + Keep(b, keep)
  {
    if a == [] {
      assert a + b == b;
    } else {
      assert (a + b)[0] == a[0];
      assert (a + b)[1..] == a[1..] + b;
      KeepAppend(a[1..], b, keep);
    }
  }

  /** Keeping class `p` and then class `q` keeps the class `both` when `both` is `p` and `q`. */
  lemma {:induction false} KeepKeep(s: string, p: char -> bool, q: char -> bool, both: char -> bool)
    requires forall i :: 0 <= i < |s| ==> (both(s[i]) <==> p(s[i]) && q(s[i]))
    ensures Keep(Keep(s, p), q) == Keep(s, both)
  {
    if s != [] {
      KeepKeep(s[1..], p, q, both);
      var head := if p(s[0]) then [s[0]] else [];
      KeepAppend(head, Keep(s[1..], p), q);
    }
  }

  /** What `keep` leaves of `s` is all whitespace iff every kept code unit of `s` is whitespace. */
  lemma {:induction false} KeepAllSpace(s: string, keep: char -> bool)
    ensures AllSpace(Keep(s, keep)) <==> forall i :: 0 <= i < |s| && keep(s[i]) ==> IsSpace(s[i])
  {
    if s != [] {
      KeepAllSpace(s[1..], keep);
      var head := if keep(s[0]) then [s[0]] else [];
      var rest := Keep(s[1..], keep);
      assert Keep(s, keep) == head + rest;
      if AllSpace(head + rest) {
        assert AllSpace(rest) by {
          forall i | 0 <= i < |rest| ensures IsSpace(rest[i]) { assert rest[i] == (head + rest)[|head| + i]; }
        }
        forall i | 0 <= i < |s| && keep(s[i]) ensures IsSpace(s[i]) {
          if i == 0 { assert (head + rest)[0] == s[0]; } else { assert s[i] == s[1..][i - 1]; }
        }
      }
      if forall i :: 0 <= i < |s| && keep(s[i]) ==> IsSpace(s[i]) {
        assert forall i :: 0 <= i < |s[1..]| && keep(s[1..][i]) ==> IsSpace(s[1..][i]) by {
          forall i | 0 <= i < |s[1..]| && keep(s[1..][i]) ensures IsSpace(s[1..][i]) { assert s[1..][i] == s[i + 1]; }
        }
      }
    }
  }

  // ---------------------------------------------------------------------------
  // Trim

  lemma {:induction false} LeadingSpacesSpec(s: string)
    ensures AllSpace(s[..LeadingSpaces(s)])
    ensures LeadingSpaces(s) < |s| ==> !IsSpace(s[LeadingSpaces(s)])
  {
    if s != [] && IsSpace(s[0]) {
      LeadingSpacesSpec(s[1..]);
      var n := LeadingSpaces(s[1..]);
      forall i | 0 <= i < n + 1 ensures IsSpace(s[i]) {
        if i > 0 { assert s[i] == s[1..][..n][i - 1]; }
      }
      if n + 1 < |s| { assert s[n + 1] == s[1..][n]; }
    }
  }

  lemma {:induction false} TrailingSpacesSpec(s: string)
    ensures AllSpace(s[|s| - TrailingSpaces(s)..])
    ensures TrailingSpaces(s) < |s| ==> !IsSpace(s[|s| - TrailingSpaces(s) - 1])
  {
    if s != [] && IsSpace(s[|s| - 1]) {
      var p := s[..|s| - 1];
      TrailingSpacesSpec(p);
      var n := TrailingSpaces(p);
      forall i | |s| - (n + 1) <= i < |s| ensures IsSpace(s[i]) {
        if i < |s| - 1 { assert s[i] == p[|p| - n..][i - (|s| - (n + 1))]; }
      }
      if n + 1 < |s| { assert s[|s| - (n + 1) - 1] == p[|p| - n - 1]; }
    }
  }

  /**
    `Trim(s)` is the middle slice of `s` with whitespace on either side of it; it is
    trimmed, it is empty exactly when `s` is all whitespace, and a trimmed `s` is its own trim.
   */
  lemma TrimSpec(s: string)
    ensures var a := LeadingSpaces(s); var r := Trim(s);
      && a + |r| <= |s|
      && s == s[..a] + r + s[a + |r|..]
      && AllSpace(s[..a]) && AllSpace(s[a + |r|..])
      && Trimmed(r)
      && (r == [] <==> AllSpace(s))
      && (Trimmed(s) ==> r == s)
  {
    TrimSlices(s);
    TrimmedTrim(s);
    TrimEmpty(s, LeadingSpaces(s), Trim(s));
    if Trimmed(s) {
      TrimOfTrimmed(s);
    }
  }

  lemma TrimSlices(s: string)
    ensures var a := LeadingSpaces(s); var r := Trim(s);
      && a + |r| <= |s|
      && s == s[..a] + r + s[a + |r|..]
      && AllSpace(s[..a]) && AllSpace(s[a + |r|..])
      && (a < |s| ==> !IsSpace(s[a]))
  {
    var a := LeadingSpaces(s);
    var r := Trim(s);
    LeadingSpacesSpec(s);
    TrimIsSlice(s);
    TrimTail(s);
    SliceThree(s, a, a + |r|);
  }

  lemma TrimIsSlice(s: string)
    ensures var a := LeadingSpaces(s); var r := Trim(s);
      a + |r| <= |s| && r == s[a..a + |r|]
  {
  }

  lemma TrimTail(s: string)
    ensures AllSpace(s[LeadingSpaces(s) + |Trim(s)|..])
  {
    var a := LeadingSpaces(s);
    var t := s[a..];
    var b := TrailingSpaces(t);
    TrailingSpacesSpec(t);
    assert s[a + (|t| - b)..] == t[|t| - b..];
  }

  lemma SliceThree(s: string, i: nat, j: nat)
    requires i <= j <= |s|
    ensures s == s[..i] + s[i..j] + s[j..]
  {
  }

  lemma TrimmedTrim(s: string)
    ensures Trimmed(Trim(s))
  {
    var a := LeadingSpaces(s);
    var t := s[a..];
    var b := TrailingSpaces(t);
    var r := Trim(s);
    LeadingSpacesSpec(s);
    TrailingSpacesSpec(t);
    if r != [] {
      assert r[0] == s[a];
      assert r[|r| - 1] == t[|t| - b - 1];
    }
  }

  lemma TrimOfTrimmed(s: string)
    requires Trimmed(s)
    ensures Trim(s) == s
  {
    if s != [] {
      assert LeadingSpaces(s) == 0;
      assert s[0..] == s;
      assert TrailingSpaces(s) == 0;
      assert s[..|s|] == s;
    }
  }

  lemma TrimEmpty(s: string, a: nat, r: string)
    requires a <= |s| && AllSpace(s[..a]) && (a < |s| ==> !IsSpace(s[a]))
    requires a + |r| <= |s| && s == s[..a] + r + s[a + |r|..] && AllSpace(s[a + |r|..])
    ensures r == [] <==> AllSpace(s)
  {
    if r == [] {
      assert a == |s|;
      assert s[..a] == s;
    }
  }

  /** Whitespace in front of a code unit that is not whitespace is exactly the leading whitespace. */
  lemma {:induction false} LeadingAfterSpaces(pre: string, x: string)
    requires AllSpace(pre) && x != [] && !IsSpace(x[0])
    ensures LeadingSpaces(pre + x) == |pre|
  {
    if pre == [] {
      assert pre + x == x;
    } else {
      assert (pre + x)[0] == pre[0] && (pre + x)[1..] == pre[1..] + x;
      assert AllSpace(pre[1..]) by {
        forall i | 0 <= i < |pre| - 1 ensures IsSpace(pre[1..][i]) { assert pre[1..][i] == pre[i + 1]; }
      }
      LeadingAfterSpaces(pre[1..], x);
    }
  }

  /** Whitespace after a code unit that is not whitespace is exactly the trailing whitespace. */
  lemma {:induction false} TrailingBeforeSpaces(x: string, post: string)
    requires AllSpace(post) && x != [] && !IsSpace(x[|x| - 1])
    ensures TrailingSpaces(x + post) == |post|
    decreases |post|
  {
    if post == [] {
      assert x + post == x;
    } else {
      var xp := x + post;
      var init := post[..|post| - 1];
      assert xp[|xp| - 1] == post[|post| - 1] && xp[..|xp| - 1] == x + init;
      assert AllSpace(init) by {
        forall i | 0 <= i < |init| ensures IsSpace(init[i]) { assert init[i] == post[i]; }
      }
      TrailingBeforeSpaces(x, init);
    }
  }

  /** Trimming a trimmed, non-empty string padded with whitespace gives that string back. */
  lemma TrimPadded(pre: string, m: string, post: string)
    requires AllSpace(pre) && AllSpace(post) && Trimmed(m) && m != []
    ensures Trim(pre + m + post) == m
  {
    var s := pre + m + post;
    assert s == pre + (m + post) && (m + post)[0] == m[0];
    LeadingAfterSpaces(pre, m + post);
    assert s[|pre|..] == m + post;
    TrailingBeforeSpaces(m, post);
    assert (m + post)[..|m|] == m;
  }

  // ---------------------------------------------------------------------------
  // Word runs and split

  /** A string has no word runs exactly when it is all whitespace. */
  lemma {:induction false} WordRunsZero(s: string)
    ensures WordRuns(s) == 0 <==> AllSpace(s)
  {
    if s != [] {
      WordRunsZero(s[1..]);
      assert AllSpace(s) <==> IsSpace(s[0]) && AllSpace(s[1..]) by {
        if IsSpace(s[0]) && AllSpace(s[1..]) {
          forall i | 0 <= i < |s| ensures IsSpace(s[i]) { if i > 0 { assert s[i] == s[1..][i - 1]; } }
        }
        if AllSpace(s) && |s| > 1 {
          forall i | 0 <= i < |s| - 1 ensures IsSpace(s[1..][i]) { assert s[1..][i] == s[i + 1]; }
        }
      }
      if !IsSpace(s[0]) && |s| > 1 && !IsSpace(s[1]) {
        assert !AllSpace(s[1..]) by { assert s[1..][0] == s[1]; }
      }
    }
  }

  /** Whitespace in front of `m` does not change its word runs. */
  lemma {:induction false} WordRunsAfterSpaces(pre: string, m: string)
    requires AllSpace(pre)
    ensures WordRuns(pre + m) == WordRuns(m)
  {
    if pre == [] {
      assert pre + m == m;
    } else {
      assert (pre + m)[0] == pre[0];
      assert (pre + m)[1..] == pre[1..] + m;
      assert AllSpace(pre[1..]) by {
        forall i | 0 <= i < |pre| - 1 ensures IsSpace(pre[1..][i]) { assert pre[1..][i] == pre[i + 1]; }
      }
      WordRunsAfterSpaces(pre[1..], m);
    }
  }

  /** Whitespace after `m` does not change its word runs. */
  lemma {:induction false} WordRunsBeforeSpaces(m: string, post: string)
    requires AllSpace(post)
    ensures WordRuns(m + post) == WordRuns(m)
  {
    if m == [] {
      assert m + post == post;
      WordRunsZero(post);
    } else {
      var s := m + post;
      assert s[0] == m[0];
      assert s[1..] == m[1..] + post;
      if |m| > 1 {
        assert s[1] == m[1];
      } else if post != [] {
        assert s[1] == post[0];
      }
      assert WordEndsHere(s) == WordEndsHere(m);
      WordRunsBeforeSpaces(m[1..], post);
    }
  }

  /** Padding `m` with whitespace on both sides does not change its word runs. */
  lemma WordRunsPadded(pre: string, m: string, post: string)
    requires AllSpace(pre) && AllSpace(post)
    ensures WordRuns(pre + m + post) == WordRuns(m)
  {
    assert pre + m + post == pre + (m + post);
    WordRunsAfterSpaces(pre, m + post);
    WordRunsBeforeSpaces(m, post);
  }

  /** Trimming does not change the number of word runs. */
  lemma TrimWordRuns(s: string)
    ensures WordRuns(Trim(s)) == WordRuns(s)
  {
    TrimSpec(s);
    var a := LeadingSpaces(s);
    var r := Trim(s);
    WordRunsPadded(s[..a], r, s[a + |r|..]);
  }

  /** Every whitespace run but the last closes one piece; the last piece is always there. */
  lemma {:induction false} SplitFromLength(s: string, piece: string)
    ensures |SplitFrom(s, piece)| == 1 + SpaceRuns(s)
    decreases |s|
  {
    if s != [] {
      if !IsSpace(s[0]) {
        SplitFromLength(s[1..], piece + [s[0]]);
      } else if |s| > 1 && IsSpace(s[1]) {
        SplitFromLength(s[1..], piece);
      } else {
        SplitFromLength(s[1..], []);
      }
    }
  }

  /**
    Word runs and whitespace runs alternate: their numbers differ by the runs at the
    two ends of `s`.
   */
  lemma {:induction false} RunsAlternate(s: string)
    requires s != []
    ensures WordRuns(s) + (if IsSpace(s[0]) then 1 else 0)
         == SpaceRuns(s) + (if IsSpace(s[|s| - 1]) then 0 else 1)
  {
    if |s| > 1 {
      assert s[1..][0] == s[1];
      assert s[1..][|s| - 2] == s[|s| - 1];
      RunsAlternate(s[1..]);
    }
  }

  /** Without trailing whitespace, and with a piece in progress or no leading whitespace, no piece is empty. */
  lemma {:induction false} SplitFromNonEmpty(s: string, piece: string)
    requires s != [] && !IsSpace(s[|s| - 1]) && (piece != [] || !IsSpace(s[0]))
    ensures [] !in SplitFrom(s, piece)
    decreases |s|
  {
    if |s| > 1 {
      assert s[1..][0] == s[1];
      assert s[1..][|s| - 2] == s[|s| - 1];
      if !IsSpace(s[0]) {
        SplitFromNonEmpty(s[1..], piece + [s[0]]);
      } else if IsSpace(s[1]) {
        SplitFromNonEmpty(s[1..], piece);
      } else {
        SplitFromNonEmpty(s[1..], []);
      }
    }
  }

  /** On a trimmed, non-empty string `split(/\s+/)` yields one non-empty piece per word run. */
  lemma SplitCountsWordRuns(s: string)
    requires s != [] && Trimmed(s)
    ensures |SplitOnSpaceRuns(s)| == WordRuns(s) && [] !in SplitOnSpaceRuns(s)
  {
    SplitFromLength(s, []);
    RunsAlternate(s);
    SplitFromNonEmpty(s, []);
  }
}
