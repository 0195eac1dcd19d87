/** What normalising white space keeps and what it changes, told from the characters alone. */
module Whitespace {
  import opened Markdown

  /** What Python's `split` and `strip` take for white space, code point by code point. */
  lemma SpaceExactly(c: char)
    ensures IsSpace(c) <==>
              c as int in {9, 10, 11, 12, 13, 28, 29, 30, 31, 32, 0x85, 0xA0, 0x1680,
                           0x2000, 0x2001, 0x2002, 0x2003, 0x2004, 0x2005, 0x2006, 0x2007, 0x2008, 0x2009, 0x200A,
                           0x2028, 0x2029, 0x202F, 0x205F, 0x3000}
  {
  }

  /** The characters that are not white space. */
  function Dense(s: string): string {
    if s == "" then ""
    else if IsSpace(s[0]) then Dense(s[1..])
    else [s[0]] + Dense(s[1..])
  }

  /** The characters that are not white space, each with whether white space stands before it; `gap` tells
      it of the first. */
  function Letters(s: string, gap: bool): seq<(char, bool)> {
    if s == "" then []
    else if IsSpace(s[0]) then Letters(s[1..], true)
    else [(s[0], gap)] + Letters(s[1..], false)
  }

  /** Trimmed text, with no two blanks in a row. */
  predicate Tidy(s: string) {
    && Trim(s)
    && forall i :: 0 <= i < |s| - 1 && s[i] == ' ' ==> s[i + 1] != ' '
  }

  lemma {:induction false} LettersAreDense(s: string, t: string, gap: bool)
    requires Letters(s, gap) == Letters(t, gap)
    ensures Dense(s) == Dense(t)
  {
    DenseOf(s, gap);
    DenseOf(t, gap);
  }

  function Firsts(letters: seq<(char, bool)>): string {
    seq(|letters|, i requires 0 <= i < |letters| => letters[i].0)
  }

  lemma {:induction false} DenseOf(s: string, gap: bool)
    ensures Dense(s) == Firsts(Letters(s, gap))
  {
    if s != "" {
      DenseOf(s[1..], IsSpace(s[0]));
    }
  }

  lemma {:induction false} LettersOfWord(w: string, rest: string, gap: bool)
    requires forall i :: 0 <= i < |w| ==> !IsSpace(w[i])
    ensures Letters(w + rest, gap) == Letters(w, gap) + Letters(rest, if w == "" then gap else false)
  {
    if w == "" {
      assert w + rest == rest;
    } else {
      var s, tail := w + rest, w[1..];
      assert s[1..] == tail + rest && s[0] == w[0];
      LettersOfWord(tail, rest, false);
      assert Letters(s, gap) == [(w[0], gap)] + Letters(tail + rest, false);
    }
  }

  lemma {:induction false} NoLetters(s: string, gap: bool)
    requires forall i :: 0 <= i < |s| ==> IsSpace(s[i])
    ensures Letters(s, gap) == []
  {
    if s != "" {
      NoLetters(s[1..], true);
    }
  }

  /** Every character that is not white space is kept, in order, and white space stands between two of them
      after exactly if it did before. */
  lemma {:induction false} LettersKept(s: string)
    ensures Letters(Normalised(s), true) == Letters(s, true)
    decreases |s|, 0
  {
    if s != "" {
      if IsSpace(s[0]) {
        LettersKept(s[1..]);
      } else {
        var j := WordEnd(s, 0);
        WordKept(s, s[..j], s[j..]);
      }
    }
  }

  lemma {:induction false} WordKept(s: string, w: string, rest: string)
    requires s == w + rest && w != "" && |w| == WordEnd(s, 0) && w == s[..|w|] && rest == s[|w|..]
    ensures Letters(Normalised(s), true) == Letters(s, true)
    decreases |rest|, 1
  {
    LettersOfWord(w, rest, true);
    if rest != "" {
      assert rest[0] == s[|w|] && IsSpace(rest[0]);
      LettersKept(rest);
      if Words(rest) == [] {
        WordsAreWords(rest);
        NoLetters(rest, false);
        assert Joined([w]) == w;
      } else {
        var tail := Normalised(rest);
        assert ([w] + Words(rest))[1..] == Words(rest);
        assert Normalised(s) == w + (" " + tail);
        LettersOfWord(w, " " + tail, true);
        assert (" " + tail)[1..] == tail;
      }
    } else {
      assert Words(s) == [w];
    }
  }

  lemma {:induction false} JoinedSingle(words: seq<string>)
    requires forall w :: w in words ==> IsWord(w)
    ensures Tidy(Joined(words))
  {
    JoinedTrim(words);
    if |words| > 1 {
      var w, rest := words[0], Joined(words[1..]);
      assert IsWord(w) && w in words;
      JoinedSingle(words[1..]);
      JoinedTrim(words[1..]);
      var s := w + " " + rest;
      assert forall i :: 0 <= i < |w| ==> s[i] == w[i] && !IsSpace(s[i]);
      forall i | 0 <= i < |s| - 1 && s[i] == ' '
        ensures s[i + 1] != ' '
      {
        assert i >= |w|;
        assert s[i + 1] == rest[i - |w|];
        assert i > |w| ==> s[i] == rest[i - |w| - 1];
      }
    } else if |words| == 1 {
      assert words[0] in words;
    }
  }

  /** Such text is determined by its letters. */
  lemma {:induction false} LettersDetermine(a: string, b: string, gap: bool)
    requires Ends(a) && Ends(b) && Letters(a, gap) == Letters(b, gap)
    requires gap ==> (a != "" ==> a[0] != ' ') && (b != "" ==> b[0] != ' ')
    ensures a == b
    decreases |a| + |b|
  {
    LettersOfEnds(a, gap);
    LettersOfEnds(b, gap);
    if a != "" && b != "" && IsSpace(a[0]) == IsSpace(b[0]) {
      if IsSpace(a[0]) {
        LettersDetermine(a[1..], b[1..], true);
      } else {
        assert Letters(a, gap)[1..] == Letters(a[1..], false) && Letters(b, gap)[1..] == Letters(b[1..], false);
        assert Letters(a, gap)[0] == (a[0], gap) && Letters(b, gap)[0] == (b[0], gap);
        LettersDetermine(a[1..], b[1..], false);
      }
      assert a == [a[0]] + a[1..] && b == [b[0]] + b[1..];
    }
  }

  /** Text without white space at its end, without two blanks in a row and without any other white space. */
  predicate Ends(s: string) {
    && (s != "" ==> !IsSpace(s[|s| - 1]))
    && (forall i :: 0 <= i < |s| && IsSpace(s[i]) ==> s[i] == ' ')
    && forall i :: 0 <= i < |s| - 1 && s[i] == ' ' ==> s[i + 1] != ' '
  }

  lemma {:induction false} LettersOfEnds(s: string, gap: bool)
    requires Ends(s)
    ensures if s == "" then Letters(s, gap) == []
            else Letters(s, gap) != [] && (Letters(s, gap)[0].1 <==> gap || IsSpace(s[0]))
  {
    if s != "" && IsSpace(s[0]) {
      LettersOfEnds(s[1..], true);
    }
  }

  /** The normalised text is the one tidy text that has the letters of the input, with white space between
      two of them exactly where the input has some. */
  lemma NormalisedExactly(s: string, t: string)
    ensures t == Normalised(s) <==> Tidy(t) && Letters(t, true) == Letters(s, true)
  {
    WordsAreWords(s);
    JoinedSingle(Words(s));
    LettersKept(s);
    if Tidy(t) && Letters(t, true) == Letters(s, true) {
      LettersDetermine(t, Normalised(s), true);
    }
  }

  /** It has the same characters but for white space. */
  lemma NormalisedDense(s: string)
    ensures Dense(Normalised(s)) == Dense(s)
  {
    LettersKept(s);
    LettersAreDense(Normalised(s), s, true);
  }

  /** Tidy text is left alone. */
  lemma NormalisedFixed(s: string)
    requires Tidy(s)
    ensures Normalised(s) == s
  {
    NormalisedExactly(s, s);
  }
}
