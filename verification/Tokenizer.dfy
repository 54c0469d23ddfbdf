/** The tokenizer of the log search, against counting whole-word occurrences in the text. */
module Tokenizer {
  import opened GoStrings

  predicate IsWordChar(c: char) {
    'a' <= c <= 'z' || '0' <= c <= '9' || c == '-' || c == '_'
  }

  /** `w` stands at position `i` as a whole word: word characters only, and none on either side. */
  predicate WordAt(s: string, w: string, i: int) {
    && w != "" && OccursAt(s, w, i)
    && (forall k :: 0 <= k < |w| ==> IsWordChar(w[k]))
    && (i > 0 ==> !IsWordChar(s[i - 1]))
    && (i + |w| < |s| ==> !IsWordChar(s[i + |w|]))
  }

  /** The number of positions from `from` on where `w` stands as a whole word. */
  function CountFrom(s: string, w: string, from: nat): nat
    decreases |s| - from
  {
    if from >= |s| then 0 else (if WordAt(s, w, from) then 1 else 0) + CountFrom(s, w, from + 1)
  }

  function WordCount(s: string, w: string): nat { CountFrom(s, w, 0) }

  /** The token counts of a text: its whole words of at least two characters, each with its number of occurrences. */
  function Tokens(s: string): map<string, nat> {
    map w | w in Words(s) && |w| >= 2 :: WordCount(s, w)
  }

  // ---------------------------------------------------------------- splitting into fields

  /** The length of the run of word characters at the start. */
  function RunLength(s: string): (n: nat)
    ensures n <= |s|
    ensures forall k :: 0 <= k < n ==> IsWordChar(s[k])
    ensures n < |s| ==> !IsWordChar(s[n])
  {
    if s == "" || !IsWordChar(s[0]) then 0 else 1 + RunLength(s[1..])
  }

  /** The fields between separators, from left to right. */
  function Words(s: string): seq<string>
    decreases |s|
  {
    if s == "" then []
    else
      var n := RunLength(s);
      (if n > 0 then [s[..n]] else []) + if n < |s| then Words(s[n + 1..]) else []
  }

  /** How often a value occurs in a list. */
  function Times(ws: seq<string>, w: string): nat {
    if ws == [] then 0 else Times(ws[..|ws| - 1], w) + if ws[|ws| - 1] == w then 1 else 0
  }

  lemma {:induction false} TimesAppend(a: seq<string>, b: seq<string>, w: string)
    ensures Times(a + b, w) == Times(a, w) + Times(b, w)
  {
    if b == [] {
      assert a + b == a;
    } else {
      assert (a + b)[..|a + b| - 1] == a + b[..|b| - 1];
      TimesAppend(a, b[..|b| - 1], w);
    }
  }

  lemma {:induction false} TimesIn(ws: seq<string>, w: string)
    ensures w in ws <==> Times(ws, w) > 0
  {
    if ws != [] {
      TimesIn(ws[..|ws| - 1], w);
      assert ws == ws[..|ws| - 1] + [ws[|ws| - 1]];
    }
  }

  lemma WordAtStart(s: string, w: string)
    requires s != ""
    ensures WordAt(s, w, 0) <==> RunLength(s) > 0 && w == s[..RunLength(s)]
  {
    var n := RunLength(s);
    if WordAt(s, w, 0) {
      assert s[..|w|] == w;
      assert |w| == n;
    }
  }

  lemma {:induction false} NoWordInside(s: string, w: string, i: nat, n: nat)
    requires 1 <= i <= n + 1 && n <= |s| && n == RunLength(s)
    ensures CountFrom(s, w, i) == CountFrom(s, w, n + 1)
    decreases n + 1 - i
  {
    if i <= n {
      assert i < |s| ==> !WordAt(s, w, i);
      NoWordInside(s, w, i + 1, n);
    }
  }

  lemma Shifted(s: string, w: string, n: nat, i: nat)
    requires n < |s| && !IsWordChar(s[n]) && i < |s| - n - 1
    ensures WordAt(s, w, n + 1 + i) <==> WordAt(s[n + 1..], w, i)
  {
    var t := s[n + 1..];
    if i + |w| <= |t| { assert s[n + 1 + i..n + 1 + i + |w|] == t[i..i + |w|]; }
  }

  lemma {:induction false} ShiftedCount(s: string, w: string, n: nat, i: nat)
    requires n < |s| && !IsWordChar(s[n])
    ensures CountFrom(s, w, n + 1 + i) == CountFrom(s[n + 1..], w, i)
    decreases |s| - i
  {
    hide WordAt;
    if i < |s| - n - 1 {
      Shifted(s, w, n, i);
      ShiftedCount(s, w, n, i + 1);
    }
  }

  /** Splitting finds each word as often as it stands in the text. */
  lemma {:induction false} SplitCounts(s: string, w: string)
    ensures Times(Words(s), w) == WordCount(s, w)
    decreases |s|
  {
    hide WordAt, CountFrom, Times, Words;
    if s != "" {
      var n := RunLength(s);
      var first := if n > 0 then [s[..n]] else [];
      var rest := if n < |s| then Words(s[n + 1..]) else [];
      WordsUnfold(s);
      TimesAppend(first, rest, w);
      FirstWord(s, w);
      if n < |s| {
        SplitCounts(s[n + 1..], w);
        ShiftedCount(s, w, n, 0);
      }
    }
    Nothing(s, w);
  }

  lemma WordsUnfold(s: string)
    requires s != ""
    ensures var n := RunLength(s);
            Words(s) == (if n > 0 then [s[..n]] else []) + (if n < |s| then Words(s[n + 1..]) else [])
  {
  }

  lemma FirstWord(s: string, w: string)
    requires s != ""
    ensures var n := RunLength(s);
            && Times(if n > 0 then [s[..n]] else [], w) == (if WordAt(s, w, 0) then 1 else 0)
            && CountFrom(s, w, 0) == (if WordAt(s, w, 0) then 1 else 0) + CountFrom(s, w, n + 1)
  {
    hide WordAt;
    WordAtStart(s, w);
    NoWordInside(s, w, 1, RunLength(s));
  }

  lemma Nothing(s: string, w: string)
    ensures Words("") == [] && Times([], w) == 0 && CountFrom(s, w, |s|) == 0 && CountFrom(s, w, |s| + 1) == 0
  {
  }

  /** A word is a token exactly when it has two characters and stands somewhere in the text. */
  lemma TokenMeaning(s: string, w: string)
    ensures w in Tokens(s) <==> |w| >= 2 && WordCount(s, w) > 0
  {
    SplitCounts(s, w);
    TimesIn(Words(s), w);
  }

  method Tokenize(s: string) returns (freq: map<string, nat>)
    ensures freq == Tokens(s)
  {
    hide Words;
    var words := Words(s);
    freq := map[];
    for i := 0 to |words|
      invariant forall w :: w in freq <==> |w| >= 2 && Times(words[..i], w) > 0
      invariant forall w :: w in freq ==> freq[w] == Times(words[..i], w)
    {
      var word := words[i];
      assert words[..i + 1][..i] == words[..i];
      if |word| >= 2 {
        freq := freq[word := (if word in freq then freq[word] else 0) + 1];
      }
    }
    assert words[..|words|] == words;
    forall w ensures w in freq <==> w in Tokens(s) {
      TimesIn(words, w);
    }
    forall w | w in freq ensures freq[w] == WordCount(s, w) {
      SplitCounts(s, w);
    }
  }
}
