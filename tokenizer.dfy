/** Python's `str.split()` with no argument: a row of text is cut at every run
    of whitespace, and leading or trailing whitespace yields no token, so no
    token is ever empty. */
module Tokenizer {

  /** The characters Python's `str.isspace` accepts, which are exactly those
      that `str.split()` treats as separators. */
  predicate IsSpace(c: char)
  {
    || ('\t' <= c <= '\r')                     // tab, line feed, vertical tab, form feed, carriage return
    || ('\U{1C}' <= c <= '\U{1F}')             // file, group, record and unit separators
    || c == ' '
    || c == '\U{85}' || c == '\U{A0}' || c == '\U{1680}'
    || ('\U{2000}' <= c <= '\U{200A}')
    || c == '\U{2028}' || c == '\U{2029}' || c == '\U{202F}' || c == '\U{205F}'
    || c == '\U{3000}'
  }

  /** A string made only of whitespace (possibly empty). */
  predicate IsBlank(g: string)
  {
    forall i :: 0 <= i < |g| ==> IsSpace(g[i])
  }

  /** A token: non-empty and free of whitespace. */
  predicate IsWord(w: string)
  {
    w != [] && forall i :: 0 <= i < |w| ==> !IsSpace(w[i])
  }

  /** The number of whitespace characters at the start of `s`. */
  function LeadingSpace(s: string): (n: nat)
    ensures n <= |s|
    ensures IsBlank(s[..n])
    ensures n < |s| ==> !IsSpace(s[n])
  {
    if s != [] && IsSpace(s[0]) then
      var n := 1 + LeadingSpace(s[1..]);
      assert s[..n] == [s[0]] + s[1..][..n - 1];
      n
    else 0
  }

  /** The length of the longest whitespace-free prefix of `s`. */
  function WordLength(s: string): (n: nat)
    ensures n <= |s|
    ensures forall i :: 0 <= i < n ==> !IsSpace(s[i])
    ensures n < |s| ==> IsSpace(s[n])
  {
    if s != [] && !IsSpace(s[0]) then 1 + WordLength(s[1..]) else 0
  }

  /** The tokens of `s`, left to right. */
  function Split(s: string): (r: seq<string>)
    ensures forall i :: 0 <= i < |r| ==> IsWord(r[i])
    decreases |s|
  {
    var t := s[LeadingSpace(s)..];
    if t == [] then []
    else
      var n := WordLength(t);
      [t[..n]] + Split(t[n..])
  }

  /** The whitespace runs around and between the tokens of `s`: one before
      each token and one after the last. */
  function Gaps(s: string): (g: seq<string>)
    ensures |g| == |Split(s)| + 1
    decreases |s|
  {
    var k := LeadingSpace(s);
    var t := s[k..];
    if t == [] then [s]
    else [s[..k]] + Gaps(t[WordLength(t)..])
  }

  /** Tokens interleaved with the gaps: gaps[0] + words[0] + gaps[1] + ... */
  function Weave(gaps: seq<string>, words: seq<string>): string
    requires |gaps| == |words| + 1
  {
    if words == [] then gaps[0]
    else gaps[0] + words[0] + Weave(gaps[1..], words[1..])
  }

  /** `gaps` and `words` describe a text that `str.split()` cuts into exactly
      `words`: every gap is whitespace, every gap between two tokens holds at
      least one character, and every token is a word. */
  predicate Separates(gaps: seq<string>, words: seq<string>)
  {
    && |gaps| == |words| + 1
    && (forall i :: 0 <= i < |gaps| ==> IsBlank(gaps[i]))
    && (forall i :: 0 < i < |words| ==> gaps[i] != [])
    && (forall i :: 0 <= i < |words| ==> IsWord(words[i]))
  }

  /** One step of Split and Gaps on a text that still holds a token. */
  lemma SplitGapsStep(s: string)
    requires s[LeadingSpace(s)..] != []
    ensures var k := LeadingSpace(s);
            var t := s[k..];
            var n := WordLength(t);
            && Split(s) == [t[..n]] + Split(t[n..])
            && Gaps(s) == [s[..k]] + Gaps(t[n..])
  {
  }

  /** Prepending a blank gap and a word keeps a separation valid, provided
      the old first gap is not empty when it now stands between two words. */
  lemma SeparatesCons(g: string, w: string, gaps: seq<string>, words: seq<string>)
    requires IsBlank(g) && IsWord(w) && Separates(gaps, words)
    requires words != [] ==> gaps[0] != []
    ensures Separates([g] + gaps, [w] + words)
  {
    var gs, ws := [g] + gaps, [w] + words;
    forall i | 0 < i < |ws| ensures gs[i] != [] {
      assert gs[i] == gaps[i - 1];
    }
    forall i | 0 <= i < |gs| ensures IsBlank(gs[i]) {
      if i > 0 { assert gs[i] == gaps[i - 1]; }
    }
    forall i | 0 <= i < |ws| ensures IsWord(ws[i]) {
      if i > 0 { assert ws[i] == words[i - 1]; }
    }
  }

  lemma WeaveCons(g: string, w: string, gaps: seq<string>, words: seq<string>)
    requires |gaps| == |words| + 1
    ensures Weave([g] + gaps, [w] + words) == g + (w + Weave(gaps, words))
  {
    assert ([g] + gaps)[1..] == gaps && ([w] + words)[1..] == words;
  }

  lemma Decompose(s: string, k: nat, n: nat)
    requires k <= |s| && n <= |s| - k
    ensures s == s[..k] + (s[k..][..n] + s[k..][n..])
  {
    assert s[k..] == s[k..][..n] + s[k..][n..];
    assert s == s[..k] + s[k..];
  }

  /** The first gap of a text is its leading whitespace. */
  lemma GapsHead(s: string)
    ensures Gaps(s)[0] == s[..LeadingSpace(s)]
  {
  }

  /** Every text is its tokens woven with its gaps: splitting loses only
      whitespace, and keeps the tokens in their left-to-right order. */
  lemma {:induction false} SplitThenWeave(s: string)
    ensures Separates(Gaps(s), Split(s))
    ensures Weave(Gaps(s), Split(s)) == s
    decreases |s|
  {
    var k := LeadingSpace(s);
    var t := s[k..];
    if t == [] {
      assert s[..k] == s;
      assert Split(s) == [] && Gaps(s) == [s];
    } else {
      var n := WordLength(t);
      var rest := t[n..];
      var g, w := s[..k], t[..n];
      SplitThenWeave(rest);
      SplitGapsStep(s);
      assert IsWord(w);
      GapsHead(rest);
      // the next token, if any, is preceded by the whitespace that ended this one
      assert rest != [] ==> IsSpace(rest[0]);
      assert Split(rest) != [] ==> Gaps(rest)[0] != [];
      SeparatesCons(g, w, Gaps(rest), Split(rest));
      WeaveCons(g, w, Gaps(rest), Split(rest));
      Decompose(s, k, n);
    }
  }

  lemma LeadingSpaceOfBlankThenWord(g: string, x: string)
    requires IsBlank(g)
    requires x == [] || !IsSpace(x[0])
    ensures LeadingSpace(g + x) == |g|
    decreases |g|
  {
    if g != [] {
      assert (g + x)[1..] == g[1..] + x;
      LeadingSpaceOfBlankThenWord(g[1..], x);
    }
  }

  lemma WordLengthOfWordThenSpace(w: string, x: string)
    requires forall i :: 0 <= i < |w| ==> !IsSpace(w[i])
    requires x == [] || IsSpace(x[0])
    ensures WordLength(w + x) == |w|
    decreases |w|
  {
    if w != [] {
      assert (w + x)[1..] == w[1..] + x;
      WordLengthOfWordThenSpace(w[1..], x);
    }
  }

  /** A blank gap, a word and then either nothing or whitespace: Split takes
      the word as its first token and carries on after it. */
  lemma SplitOfGapWordRest(g: string, w: string, rest: string)
    requires IsBlank(g) && IsWord(w)
    requires rest == [] || IsSpace(rest[0])
    ensures Split(g + (w + rest)) == [w] + Split(rest)
  {
    var s := g + (w + rest);
    LeadingSpaceOfBlankThenWord(g, w + rest);
    assert s[|g|..] == w + rest;
    WordLengthOfWordThenSpace(w, rest);
    assert (w + rest)[..|w|] == w && (w + rest)[|w|..] == rest;
    SplitGapsStep(s);
  }

  /** What follows the first word of a separated text is empty or starts with
      whitespace. */
  lemma WeaveTailStartsWithSpace(gaps: seq<string>, words: seq<string>)
    requires Separates(gaps, words) && words != []
    ensures var rest := Weave(gaps[1..], words[1..]);
            rest == [] || IsSpace(rest[0])
  {
    var rest := Weave(gaps[1..], words[1..]);
    if |words| > 1 {
      assert rest == gaps[1] + (words[1] + Weave(gaps[2..], words[2..]));
      if rest != [] {
        assert gaps[1] != [];
        assert rest[0] == gaps[1][0];
      }
    }
  }

  lemma SeparatesTail(gaps: seq<string>, words: seq<string>)
    requires Separates(gaps, words) && words != []
    ensures Separates(gaps[1..], words[1..])
  {
    var gs, ws := gaps[1..], words[1..];
    forall i | 0 < i < |ws| ensures gs[i] != [] {
      assert gs[i] == gaps[i + 1];
    }
    forall i | 0 <= i < |gs| ensures IsBlank(gs[i]) {
      assert gs[i] == gaps[i + 1];
    }
    forall i | 0 <= i < |ws| ensures IsWord(ws[i]) {
      assert ws[i] == words[i + 1];
    }
  }

  /** Splitting undoes weaving: whatever whitespace separates a list of words,
      `str.split()` gives back exactly those words. */
  lemma {:induction false} WeaveThenSplit(gaps: seq<string>, words: seq<string>)
    requires Separates(gaps, words)
    ensures Split(Weave(gaps, words)) == words
    decreases |words|
  {
    if words == [] {
      LeadingSpaceOfBlankThenWord(gaps[0], []);
      assert gaps[0] + [] == gaps[0];
    } else {
      var rest := Weave(gaps[1..], words[1..]);
      SeparatesTail(gaps, words);
      WeaveThenSplit(gaps[1..], words[1..]);
      WeaveTailStartsWithSpace(gaps, words);
      assert Weave(gaps, words) == gaps[0] + (words[0] + rest);
      SplitOfGapWordRest(gaps[0], words[0], rest);
    }
  }

  /** The gaps with extra whitespace in front of the first one. */
  function WithFront(front: string, gaps: seq<string>): seq<string>
    requires gaps != []
  {
    [front + gaps[0]] + gaps[1..]
  }

  /** The gaps with extra whitespace after the last one. */
  function WithBack(gaps: seq<string>, back: string): seq<string>
    requires gaps != []
  {
    gaps[..|gaps| - 1] + [gaps[|gaps| - 1] + back]
  }

  lemma WeaveWithFront(front: string, gaps: seq<string>, words: seq<string>)
    requires |gaps| == |words| + 1
    ensures Weave(WithFront(front, gaps), words) == front + Weave(gaps, words)
  {
    var g' := WithFront(front, gaps);
    if words != [] {
      assert g'[1..] == gaps[1..];
    }
  }

  lemma {:induction false} WeaveWithBack(gaps: seq<string>, words: seq<string>, back: string)
    requires |gaps| == |words| + 1
    ensures Weave(WithBack(gaps, back), words) == Weave(gaps, words) + back
    decreases |words|
  {
    var g' := WithBack(gaps, back);
    if words != [] {
      WeaveWithBack(gaps[1..], words[1..], back);
      assert g'[1..] == WithBack(gaps[1..], back);
      assert g'[0] == gaps[0];
    }
  }

  lemma SeparatesWithFront(front: string, gaps: seq<string>, words: seq<string>)
    requires IsBlank(front) && Separates(gaps, words)
    ensures Separates(WithFront(front, gaps), words)
  {
    var g' := WithFront(front, gaps);
    forall i | 0 <= i < |g'| ensures IsBlank(g'[i]) && (i > 0 ==> g'[i] == gaps[i]) {
      if i > 0 { assert g'[i] == gaps[i]; }
    }
  }

  lemma SeparatesWithBack(gaps: seq<string>, words: seq<string>, back: string)
    requires IsBlank(back) && Separates(gaps, words)
    ensures Separates(WithBack(gaps, back), words)
  {
    var g' := WithBack(gaps, back);
    forall i | 0 <= i < |g'| ensures IsBlank(g'[i]) && (i < |g'| - 1 ==> g'[i] == gaps[i]) {
      if i < |g'| - 1 { assert g'[i] == gaps[i]; }
    }
  }

  /** Leading and trailing whitespace produce no tokens. */
  lemma OuterBlanksIgnored(front: string, s: string, back: string)
    requires IsBlank(front) && IsBlank(back)
    ensures Split(front + s + back) == Split(s)
  {
    SplitThenWeave(s);
    var g, w := Gaps(s), Split(s);
    var g' := WithBack(WithFront(front, g), back);
    WeaveWithFront(front, g, w);
    WeaveWithBack(WithFront(front, g), w, back);
    SeparatesWithFront(front, g, w);
    SeparatesWithBack(WithFront(front, g), w, back);
    WeaveThenSplit(g', w);
  }

  /** Tokens separated by single spaces, as `" ".join(words)` writes them. */
  function JoinWithSpaces(words: seq<string>): string
  {
    if words == [] then [] else if |words| == 1 then words[0]
    else words[0] + " " + JoinWithSpaces(words[1..])
  }

  lemma JoinWithSpacesStep(words: seq<string>)
    requires words != []
    ensures JoinWithSpaces(words)
            == words[0] + (if |words| == 1 then [] else " " + JoinWithSpaces(words[1..]))
  {
  }

  /** A text that starts with a word followed by nothing or by whitespace
      splits into that word and the tokens of the rest. */
  lemma SplitOfWordRest(w: string, rest: string)
    requires IsWord(w)
    requires rest == [] || IsSpace(rest[0])
    ensures Split(w + rest) == [w] + Split(rest)
  {
    SplitOfGapWordRest([], w, rest);
    assert [] + (w + rest) == w + rest;
  }

  /** Splitting a space-joined list of words gives the words back. */
  lemma {:induction false} SplitJoinWithSpaces(words: seq<string>)
    requires forall i :: 0 <= i < |words| ==> IsWord(words[i])
    ensures Split(JoinWithSpaces(words)) == words
    decreases |words|
  {
    if words == [] {
      assert LeadingSpace([]) == 0;
    } else {
      var rest := if |words| == 1 then [] else " " + JoinWithSpaces(words[1..]);
      JoinWithSpacesStep(words);
      SplitOfWordRest(words[0], rest);
      if |words| == 1 {
        assert LeadingSpace([]) == 0;
        assert Split(rest) == [];
      } else {
        SplitJoinWithSpaces(words[1..]);
        OuterBlanksIgnored(" ", JoinWithSpaces(words[1..]), []);
        assert rest + [] == rest;
      }
    }
  }
}
