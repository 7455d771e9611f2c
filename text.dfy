/** Whitespace tokenising as Python's `str.strip()` and `str.split()` (with no
    arguments) perform it, and the case folding used to compare words.
    Whitespace is the ASCII part of Python's `str.isspace()`; case folding is
    ASCII only, an approximation of `str.lower()`. */
module Text {

  /** The ASCII characters Python treats as whitespace: tab, line feed,
      vertical tab, form feed, carriage return (0x09..0x0D), the four
      information separators (0x1C..0x1F) and space (0x20). */
  predicate IsSpace(c: char) {
    ('\t' <= c <= '\r') || ('\U{1C}' <= c <= ' ')
  }

  /** The whitespace characters, listed one by one. */
  lemma SpaceCharacters(c: char)
    ensures IsSpace(c) <==> c as int in {0x09, 0x0A, 0x0B, 0x0C, 0x0D, 0x1C, 0x1D, 0x1E, 0x1F, 0x20}
  {
  }

  predicate NoSpace(w: string) {
    forall i :: 0 <= i < |w| ==> !IsSpace(w[i])
  }

  predicate AllSpace(s: string) {
    forall i :: 0 <= i < |s| ==> IsSpace(s[i])
  }

  /** A well-formed token: non-empty and free of whitespace. */
  predicate IsWord(w: string) {
    w != [] && NoSpace(w)
  }

  // ---------------------------------------------------------------------
  // strip()

  /** The number of whitespace characters `s` starts with. */
  function LeadingSpaces(s: string): (k: nat)
    ensures k <= |s|
    ensures forall i :: 0 <= i < k ==> IsSpace(s[i])
    ensures k < |s| ==> !IsSpace(s[k])
  {
    if s != [] && IsSpace(s[0]) then 1 + LeadingSpaces(s[1..]) else 0
  }

  /** The number of whitespace characters `s` ends with. */
  function TrailingSpaces(s: string): (k: nat)
    ensures k <= |s|
    ensures forall i :: |s| - k <= i < |s| ==> IsSpace(s[i])
    ensures k < |s| ==> !IsSpace(s[|s| - 1 - k])
  {
    if s != [] && IsSpace(s[|s| - 1]) then 1 + TrailingSpaces(s[..|s| - 1]) else 0
  }

  /** `s` with its leading whitespace removed. */
  function TrimStart(s: string): (t: string)
    ensures |t| <= |s| && t == s[|s| - |t|..]
    ensures forall i :: 0 <= i < |s| - |t| ==> IsSpace(s[i])
    ensures t != [] ==> !IsSpace(t[0])
  {
    s[LeadingSpaces(s)..]
  }

  /** `s` with its trailing whitespace removed. */
  function TrimEnd(s: string): (t: string)
    ensures |t| <= |s| && t == s[..|t|]
    ensures forall i :: |t| <= i < |s| ==> IsSpace(s[i])
    ensures t != [] ==> !IsSpace(t[|t| - 1])
  {
    s[..|s| - TrailingSpaces(s)]
  }

  /** A leading whitespace character is trimmed like the rest. */
  lemma TrimStartDropsSpace(s: string)
    requires s != [] && IsSpace(s[0])
    ensures TrimStart(s) == TrimStart(s[1..])
  {
    assert s[1..][LeadingSpaces(s[1..])..] == s[LeadingSpaces(s)..];
  }

  /** A trailing whitespace character is trimmed like the rest. */
  lemma TrimEndDropsSpace(s: string)
    requires s != [] && IsSpace(s[|s| - 1])
    ensures TrimEnd(s) == TrimEnd(s[..|s| - 1])
  {
    var init := s[..|s| - 1];
    assert init[..|init| - TrailingSpaces(init)] == s[..|s| - TrailingSpaces(s)];
  }

  /** Python's `s.strip()`: neither end of the result is whitespace.
      `StripRemovesOnlySpace` shows that only whitespace was removed. */
  function Strip(s: string): (t: string)
    ensures |t| <= |s|
    ensures t != [] ==> !IsSpace(t[0]) && !IsSpace(t[|t| - 1])
  {
    TrimEnd(TrimStart(s))
  }

  /** Stripping keeps a slice of the text, and what it removes on either
      side of that slice is whitespace. */
  lemma StripRemovesOnlySpace(s: string)
    ensures var k := LeadingSpaces(s); var t := Strip(s);
      k + |t| <= |s| && t == s[k..k + |t|] &&
      (forall i :: 0 <= i < k ==> IsSpace(s[i])) && (forall i :: k + |t| <= i < |s| ==> IsSpace(s[i]))
  {
    var front := TrimStart(s);
    TrimBoth(s, |s| - |front|, front, TrimEnd(front));
  }

  /** Whitespace removed from the front of `s`, leaving `front`, and then
      from the back of `front`, leaving `t`: `t` is a slice of `s` with
      whitespace after it. */
  lemma TrimBoth(s: string, k: nat, front: string, t: string)
    requires k <= |s| && front == s[k..]
    requires |t| <= |front| && t == front[..|t|]
    requires forall i :: |t| <= i < |front| ==> IsSpace(front[i])
    ensures k + |t| <= |s| && t == s[k..k + |t|]
    ensures forall i :: k + |t| <= i < |s| ==> IsSpace(s[i])
  {
    forall i | k + |t| <= i < |s|
      ensures IsSpace(s[i])
    {
      assert s[i] == front[i - k];
    }
  }

  // ---------------------------------------------------------------------
  // split()

  /** The longest prefix of `s` that holds no whitespace. */
  function LeadingWord(s: string): (w: string)
    ensures w <= s && NoSpace(w)
    ensures |w| < |s| ==> IsSpace(s[|w|])
  {
    if s == [] || IsSpace(s[0]) then [] else [s[0]] + LeadingWord(s[1..])
  }

  /** Python's `s.split()`: the maximal runs of non-whitespace characters
      of `s`, in order. Every token is a well-formed word. */
  function Split(s: string): (ws: seq<string>)
    ensures forall k :: 0 <= k < |ws| ==> IsWord(ws[k])
    decreases |s|
  {
    if s == [] then []
    else if IsSpace(s[0]) then Split(s[1..])
    else
      var w := LeadingWord(s);
      [w] + Split(s[|w|..])
  }

  /** The tokenising the metrics use, `s.strip().split()`; stripping first
      makes no difference to the tokens. */
  function Words(s: string): (ws: seq<string>)
    ensures ws == Split(s)
  {
    SplitStrip(s);
    Split(Strip(s))
  }

  // ---------------------------------------------------------------------
  // A reference count of the words: the positions where a run of
  // non-whitespace characters ends.

  predicate EndsRun(s: string, i: nat)
    requires i < |s|
  {
    !IsSpace(s[i]) && (i + 1 == |s| || IsSpace(s[i + 1]))
  }

  function RunCount(s: string): nat
    decreases |s|
  {
    if s == [] then 0
    else RunCount(s[1..]) + (if EndsRun(s, 0) then 1 else 0)
  }

  // ---------------------------------------------------------------------
  // Lemmas

  /** After the leading word of a string that starts with a non-space,
      exactly one run has been consumed. */
  lemma {:induction false} RunCountLeadingWord(s: string)
    requires s != [] && !IsSpace(s[0])
    ensures RunCount(s) == 1 + RunCount(s[|LeadingWord(s)|..])
    decreases |s|
  {
    var w := LeadingWord(s);
    if |s| == 1 {
      assert w == s;
    } else if IsSpace(s[1]) {
      assert LeadingWord(s[1..]) == [];
      assert w == [s[0]];
    } else {
      RunCountLeadingWord(s[1..]);
      assert w == [s[0]] + LeadingWord(s[1..]);
      assert s[1..][|LeadingWord(s[1..])|..] == s[|w|..];
    }
  }

  /** The word count equals the number of maximal non-whitespace runs. */
  lemma {:induction false} WordCountIsRunCount(s: string)
    ensures |Split(s)| == RunCount(s)
    decreases |s|
  {
    if s == [] {
    } else if IsSpace(s[0]) {
      WordCountIsRunCount(s[1..]);
    } else {
      var w := LeadingWord(s);
      WordCountIsRunCount(s[|w|..]);
      RunCountLeadingWord(s);
    }
  }

  /** A text has no words exactly when it is empty or whitespace only. */
  lemma {:induction false} NoWordsIffAllSpace(s: string)
    ensures Split(s) == [] <==> AllSpace(s)
    decreases |s|
  {
    if s == [] {
    } else if IsSpace(s[0]) {
      NoWordsIffAllSpace(s[1..]);
      if AllSpace(s[1..]) {
        forall i | 0 <= i < |s| ensures IsSpace(s[i]) {
          if i > 0 { assert s[i] == s[1..][i - 1]; }
        }
      }
    }
  }

  lemma {:induction false} SplitTrimStart(s: string)
    ensures Split(TrimStart(s)) == Split(s)
    decreases |s|
  {
    if s != [] && IsSpace(s[0]) {
      TrimStartDropsSpace(s);
      SplitTrimStart(s[1..]);
    }
  }

  lemma {:induction false} LeadingWordAppendSpace(s: string, c: char)
    requires IsSpace(c)
    ensures LeadingWord(s + [c]) == LeadingWord(s)
    decreases |s|
  {
    if s != [] && !IsSpace(s[0]) {
      assert (s + [c])[1..] == s[1..] + [c];
      LeadingWordAppendSpace(s[1..], c);
    }
  }

  /** A trailing whitespace character adds no token. */
  lemma {:induction false} SplitAppendSpace(s: string, c: char)
    requires IsSpace(c)
    ensures Split(s + [c]) == Split(s)
    decreases |s|
  {
    if s == [] {
      assert Split([c]) == Split([c][1..]);
    } else if IsSpace(s[0]) {
      assert (s + [c])[1..] == s[1..] + [c];
      SplitAppendSpace(s[1..], c);
    } else {
      var w := LeadingWord(s);
      LeadingWordAppendSpace(s, c);
      assert (s + [c])[|w|..] == s[|w|..] + [c];
      SplitAppendSpace(s[|w|..], c);
    }
  }

  lemma {:induction false} SplitTrimEnd(s: string)
    ensures Split(TrimEnd(s)) == Split(s)
    decreases |s|
  {
    if s != [] && IsSpace(s[|s| - 1]) {
      var init := s[..|s| - 1];
      TrimEndDropsSpace(s);
      SplitTrimEnd(init);
      assert s == init + [s[|s| - 1]];
      SplitAppendSpace(init, s[|s| - 1]);
    } else {
      assert TrimEnd(s) == s;
    }
  }

  /** Leading and trailing whitespace does not change the tokens. */
  lemma SplitStrip(s: string)
    ensures Split(Strip(s)) == Split(s)
  {
    SplitTrimEnd(TrimStart(s));
    SplitTrimStart(s);
  }

  /** Stripping leaves nothing exactly when the text is whitespace only. */
  lemma StripEmptyIffAllSpace(s: string)
    ensures Strip(s) == [] <==> AllSpace(s)
  {
    var t := TrimStart(s);
    assert s == s[..|s| - |t|] + t;
  }

  /** Appending text that starts with whitespace leaves the leading word
      unchanged. */
  lemma {:induction false} LeadingWordBeforeSpace(a: string, t: string)
    requires t != [] && IsSpace(t[0])
    ensures LeadingWord(a + t) == LeadingWord(a)
    decreases |a|
  {
    if a == [] {
      assert a + t == t;
    } else if !IsSpace(a[0]) {
      assert (a + t)[1..] == a[1..] + t;
      LeadingWordBeforeSpace(a[1..], t);
    }
  }

  /** Text that starts with whitespace, appended after a word, does not
      change the first token and is split on its own after it. */
  lemma SplitAfterLeadingWord(a: string, t: string)
    requires a != [] && !IsSpace(a[0])
    requires t != [] && IsSpace(t[0])
    ensures Split(a + t) == [LeadingWord(a)] + Split(a[|LeadingWord(a)|..] + t)
  {
    var w := LeadingWord(a);
    LeadingWordBeforeSpace(a, t);
    assert (a + t)[0] == a[0];
    assert (a + t)[|w|..] == a[|w|..] + t;
  }

  /** A whitespace character separates: the tokens of `a`, a whitespace
      character and `b` are the tokens of `a` followed by those of `b`. */
  lemma {:induction false} SplitAtSpace(a: string, c: char, b: string)
    requires IsSpace(c)
    ensures Split(a + [c] + b) == Split(a) + Split(b)
    decreases |a|
  {
    var t := [c] + b;
    assert a + [c] + b == a + t;
    if a == [] {
      assert t[1..] == b;
    } else if IsSpace(a[0]) {
      assert (a + t)[1..] == a[1..] + t;
      SplitAtSpace(a[1..], c, b);
      assert a[1..] + [c] + b == a[1..] + t;
    } else {
      var w := LeadingWord(a);
      var rest := a[|w|..];
      SplitAfterLeadingWord(a, t);
      SplitAtSpace(rest, c, b);
      assert rest + [c] + b == rest + t;
      assert Split(a) == [w] + Split(rest);
    }
  }

  lemma SplitWord(w: string)
    requires IsWord(w)
    ensures Split(w) == [w]
  {
    LeadingWordOfJoin(w, []);
    assert w + [] == w;
    assert w[|w|..] == [];
  }

  /** A run of two whitespace characters splits like one. */
  lemma SplitCollapseSpaces(a: string, c: char, d: char, b: string)
    requires IsSpace(c) && IsSpace(d)
    ensures Split(a + [c, d] + b) == Split(a + [c] + b)
  {
    assert a + [c, d] + b == a + [c] + ([d] + b);
    SplitAtSpace(a, c, [d] + b);
    assert ([d] + b)[1..] == b;
    SplitAtSpace(a, c, b);
  }

  /** Which whitespace character separates two parts makes no difference. */
  lemma SplitAnySpace(a: string, c: char, b: string)
    requires IsSpace(c)
    ensures Split(a + [c] + b) == Split(a + " " + b)
  {
    SplitAtSpace(a, c, b);
    SplitAtSpace(a, ' ', b);
  }

  /** Words separated by single spaces. */
  function JoinWords(ws: seq<string>): string
  {
    if ws == [] then []
    else if |ws| == 1 then ws[0]
    else ws[0] + " " + JoinWords(ws[1..])
  }

  lemma {:induction false} LeadingWordOfJoin(w: string, rest: string)
    requires NoSpace(w)
    requires rest == [] || IsSpace(rest[0])
    ensures LeadingWord(w + rest) == w
    decreases |w|
  {
    if w != [] {
      assert (w + rest)[1..] == w[1..] + rest;
      LeadingWordOfJoin(w[1..], rest);
    }
  }

  /** Splitting undoes joining with single spaces: `split()` recovers any
      sequence of well-formed words from their space-separated text. */
  lemma {:induction false} SplitJoinWords(ws: seq<string>)
    requires forall k :: 0 <= k < |ws| ==> IsWord(ws[k])
    ensures Split(JoinWords(ws)) == ws
    decreases |ws|
  {
    if ws == [] {
    } else if |ws| == 1 {
      LeadingWordOfJoin(ws[0], []);
      assert ws[0] + [] == ws[0];
      assert ws[0][|ws[0]|..] == [];
    } else {
      var w, tail := ws[0], JoinWords(ws[1..]);
      var s := w + " " + tail;
      assert IsWord(w);
      LeadingWordOfJoin(w, " " + tail);
      assert s == w + (" " + tail);
      assert s[|w|..] == " " + tail;
      assert (" " + tail)[1..] == tail;
      SplitJoinWords(ws[1..]);
    }
  }

  // ---------------------------------------------------------------------
  // lower()

  predicate IsUpper(c: char) {
    'A' <= c <= 'Z'
  }

  /** ASCII lower-casing of one character: upper-case letters become their
      lower-case counterparts, everything else is left alone. */
  function LowerChar(c: char): (d: char)
    ensures !IsUpper(d)
    ensures !IsUpper(c) ==> d == c
    ensures IsUpper(c) ==> 'a' <= d <= 'z' && d as int == c as int + 32
  {
    if IsUpper(c) then (c as int + 32) as char else c
  }

  /** `w.lower()` with ASCII case folding. */
  function Lower(w: string): (r: string)
    ensures |r| == |w|
    ensures forall i :: 0 <= i < |w| ==> r[i] == LowerChar(w[i])
  {
    if w == [] then [] else [LowerChar(w[0])] + Lower(w[1..])
  }

  /** Case-insensitive word equality, `a.lower() == b.lower()`: the words
      have the same length and agree letter by letter up to case. */
  predicate SameWord(a: string, b: string)
    ensures SameWord(a, b) <==>
      |a| == |b| && forall i :: 0 <= i < |a| ==> LowerChar(a[i]) == LowerChar(b[i])
  {
    assert |a| == |b| && (forall i :: 0 <= i < |a| ==> LowerChar(a[i]) == LowerChar(b[i])) ==>
      forall i :: 0 <= i < |a| ==> Lower(a)[i] == Lower(b)[i];
    Lower(a) == Lower(b)
  }

  /** Lower-casing is idempotent. */
  lemma LowerIdempotent(w: string)
    ensures Lower(Lower(w)) == Lower(w)
  {
    assert forall i :: 0 <= i < |w| ==> LowerChar(LowerChar(w[i])) == LowerChar(w[i]);
  }
}
