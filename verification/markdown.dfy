/** Printing untrusted text into Markdown, and the CommonMark 0.31.2 readers that undo it:
    code spans (section 6.1) and fenced code blocks (section 4.5). */
module Markdown {
  import opened Options

  const TICK: char := '`'

  predicate IsSpace(c: char) {
    var u := c as int;
    || 0x09 <= u <= 0x0D || 0x1C <= u <= 0x20 || u == 0x85 || u == 0xA0 || u == 0x1680
    || 0x2000 <= u <= 0x200A || u == 0x2028 || u == 0x2029 || u == 0x202F || u == 0x205F || u == 0x3000
  }

  function Ticks(k: nat): (s: string)
    ensures |s| == k && forall i :: 0 <= i < k ==> s[i] == TICK
  {
    seq(k, _ => TICK)
  }

  // --- runs of backticks ---------------------------------------------------------------------

  predicate AllTicks(s: string, i: nat, k: nat) {
    i + k <= |s| && forall j :: i <= j < i + k ==> s[j] == TICK
  }

  /** How many backticks start at `i`. */
  function TickRun(s: string, i: nat): (k: nat)
    requires i <= |s|
    ensures AllTicks(s, i, k)
    ensures i + k < |s| ==> s[i + k] != TICK
    decreases |s| - i
  {
    if i < |s| && s[i] == TICK then 1 + TickRun(s, i + 1) else 0
  }

  lemma {:induction false} TickRunIs(s: string, i: nat, k: nat)
    requires AllTicks(s, i, k) && (i + k < |s| ==> s[i + k] != TICK)
    ensures TickRun(s, i) == k
    decreases k
  {
    if k > 0 {
      TickRunIs(s, i + 1, k - 1);
    }
  }

  /** The longest of the maximal runs at or after `i`: `max(len(m) for m in re.findall("`+", s))`. */
  function LongestFrom(s: string, i: nat): (k: nat)
    requires i <= |s|
    decreases |s| - i
  {
    if i == |s| then 0
    else
      var run := TickRun(s, i);
      if run == 0 then LongestFrom(s, i + 1)
      else
        var rest := LongestFrom(s, i + run);
        if run >= rest then run else rest
  }

  function Longest(s: string): nat {
    LongestFrom(s, 0)
  }

  /** No stretch of backticks is longer than the longest run. */
  lemma {:induction false} LongestBounds(s: string, from: nat, i: nat, k: nat)
    requires from <= i && AllTicks(s, i, k)
    ensures k <= LongestFrom(s, from)
    decreases |s| - from
  {
    if from < |s| && k > 0 {
      var run := TickRun(s, from);
      if run == 0 {
        assert from < i;
        LongestBounds(s, from + 1, i, k);
      } else if i >= from + run {
        LongestBounds(s, from + run, i, k);
      }
    }
  }

  // --- code spans ----------------------------------------------------------------------------

  /** `" ".join(text.split())`. */
  function Normalised(s: string): string {
    Joined(Words(s))
  }

  function Joined(words: seq<string>): string {
    if words == [] then "" else if |words| == 1 then words[0] else words[0] + " " + Joined(words[1..])
  }

  function WordEnd(s: string, i: nat): (j: nat)
    requires i <= |s|
    ensures i <= j <= |s| && (forall k :: i <= k < j ==> !IsSpace(s[k])) && (j < |s| ==> IsSpace(s[j]))
    decreases |s| - i
  {
    if i < |s| && !IsSpace(s[i]) then WordEnd(s, i + 1) else i
  }

  /** The maximal stretches without white space, in order. */
  function Words(s: string): seq<string>
    decreases |s|
  {
    if s == "" then []
    else if IsSpace(s[0]) then Words(s[1..])
    else
      var j := WordEnd(s, 0);
      [s[..j]] + Words(s[j..])
  }

  predicate IsWord(w: string) {
    w != "" && forall i :: 0 <= i < |w| ==> !IsSpace(w[i])
  }

  lemma {:induction false} WordsAreWords(s: string)
    ensures forall w :: w in Words(s) ==> IsWord(w)
    ensures Words(s) == [] <==> forall i :: 0 <= i < |s| ==> IsSpace(s[i])
    decreases |s|
  {
    if s != "" {
      if IsSpace(s[0]) {
        WordsAreWords(s[1..]);
        assert forall i :: 0 < i < |s| ==> s[i] == s[1..][i - 1];
      } else {
        WordsAreWords(s[WordEnd(s, 0)..]);
      }
    }
  }

  /** Text with no white space at either end, and none but blanks inside. */
  predicate Trim(s: string) {
    && (s != "" ==> !IsSpace(s[0]) && !IsSpace(s[|s| - 1]))
    && forall i :: 0 <= i < |s| && IsSpace(s[i]) ==> s[i] == ' '
  }

  lemma {:induction false} JoinedTrim(words: seq<string>)
    requires forall w :: w in words ==> IsWord(w)
    ensures Trim(Joined(words))
    ensures Joined(words) == "" <==> words == []
  {
    if |words| > 1 {
      assert words[0] in words && words[1] in words[1..];
      JoinedTrim(words[1..]);
    } else if |words| == 1 {
      assert words[0] in words;
    }
  }

  lemma NormalisedTrim(s: string)
    ensures Trim(Normalised(s))
    ensures Normalised(s) == "" <==> forall i :: 0 <= i < |s| ==> IsSpace(s[i])
  {
    WordsAreWords(s);
    JoinedTrim(Words(s));
  }

  function InlineCode(raw: string): string {
    var text := Normalised(raw);
    if TICK !in text then [TICK] + text + [TICK]
    else
      var fence := Ticks(Longest(text) + 1);
      fence + " " + text + " " + fence
  }

  /** The start of the first maximal run of exactly `k` backticks at or after `i`, where no run is
      open at `i`. */
  function FindRun(s: string, i: nat, k: nat): (r: Option<nat>)
    requires i <= |s|
    ensures r.Some? ==> i <= r.value && r.value + k <= |s|
    decreases |s| - i
  {
    if i == |s| then None
    else
      var run := TickRun(s, i);
      if run == 0 then FindRun(s, i + 1, k)
      else if run == k then Some(i)
      else FindRun(s, i + run, k)
  }

  function LineEndingsToSpaces(s: string): string {
    if s == "" then ""
    else if s[0] == '\r' && |s| > 1 && s[1] == '\n' then " " + LineEndingsToSpaces(s[2..])
    else [if s[0] == '\n' || s[0] == '\r' then ' ' else s[0]] + LineEndingsToSpaces(s[1..])
  }

  predicate OneLine(s: string) {
    forall i :: 0 <= i < |s| ==> s[i] != '\n' && s[i] != '\r'
  }

  lemma {:induction false} OneLineKept(s: string)
    requires OneLine(s)
    ensures LineEndingsToSpaces(s) == s
  {
    if s != "" {
      OneLineKept(s[1..]);
    }
  }

  /** One blank is dropped from each end, unless there is nothing but blanks. */
  function Unpadded(s: string): string {
    if |s| >= 2 && s[0] == ' ' && s[|s| - 1] == ' ' && (exists i :: 0 <= i < |s| && s[i] != ' ')
    then s[1..|s| - 1] else s
  }

  /** Where the code span that the backticks at `i` open is closed, if they open one. */
  function SpanClose(s: string, i: nat): (r: Option<nat>)
    requires i <= |s|
    ensures r.Some? ==> i + TickRun(s, i) <= r.value && r.value + TickRun(s, i) <= |s|
  {
    var k := TickRun(s, i);
    if k == 0 then None else FindRun(s, i + k, k)
  }

  /** Reads the code span that begins `s`: its content and what follows it. */
  function ReadCodeSpan(s: string): Option<(string, string)> {
    var k, close := TickRun(s, 0), SpanClose(s, 0);
    if close.None? then None
    else Some((Unpadded(LineEndingsToSpaces(s[k..close.value])), s[close.value + k..]))
  }

  /** Where the reader goes on after the backticks at `i`: behind the code span they open, or behind
      themselves when they open none. */
  function AfterTicks(s: string, i: nat): (j: nat)
    requires i < |s| && s[i] == TICK
    ensures i < j <= |s|
  {
    var k, close := TickRun(s, i), SpanClose(s, i);
    if close.Some? then close.value + k else i + k
  }

  lemma {:induction false} FoundRun(s: string, i: nat, k: nat)
    requires i <= |s| && k > 0
    ensures FindRun(s, i, k).Some? ==> TickRun(s, FindRun(s, i, k).value) == k
    decreases |s| - i
  {
    if i < |s| {
      var run := TickRun(s, i);
      if run == 0 {
        FoundRun(s, i + 1, k);
      } else if run != k {
        FoundRun(s, i + run, k);
      }
    }
  }

  /** A closing run is found past text whose runs are all shorter. */
  lemma {:induction false} FindRunIs(s: string, i: nat, k: nat, at: nat)
    requires i <= at && at + k <= |s| && k > 0
    requires TickRun(s, at) == k && (i < at ==> s[at - 1] != TICK)
    requires forall j :: i <= j < at ==> TickRun(s, j) < k
    ensures FindRun(s, i, k) == Some(at)
    decreases at - i
  {
    if i < at {
      var run := TickRun(s, i);
      if run == 0 {
        FindRunIs(s, i + 1, k, at);
      } else {
        FindRunIs(s, i + run, k, at);
      }
    }
  }

  /** A run that starts inside a content free of backticks at its end stays inside it. */
  lemma RunInside(s: string, content: string, k: nat, j: nat)
    requires k + |content| <= |s| && s[k..k + |content|] == content
    requires content != "" && content[|content| - 1] != TICK
    requires k <= j < k + |content|
    ensures TickRun(s, j) <= Longest(content)
  {
    var run, at := TickRun(s, j), k + |content|;
    assert s[at - 1] == content[|content| - 1];
    assert j + run <= at;
    forall i | j - k <= i < j - k + run
      ensures content[i] == TICK
    {
      assert content[i] == s[k + i];
    }
    LongestBounds(content, 0, j - k, run);
  }

  lemma RunsInside(s: string, content: string, k: nat, at: nat)
    requires at == k + |content| <= |s| && s[k..at] == content
    requires content != "" && content[|content| - 1] != TICK && Longest(content) < k
    ensures s[at - 1] != TICK && forall j :: k <= j < at ==> TickRun(s, j) < k
  {
    assert s[at - 1] == content[|content| - 1];
    forall j | k <= j < at
      ensures TickRun(s, j) < k
    {
      RunInside(s, content, k, j);
    }
  }

  lemma SpanCloses(s: string, content: string, k: nat, at: nat)
    requires k > 0 && content != "" && content[|content| - 1] != TICK && Longest(content) < k
    requires at == k + |content| && at + k <= |s| && s[k..at] == content && TickRun(s, at) == k
    ensures FindRun(s, k, k) == Some(at)
  {
    RunsInside(s, content, k, at);
    FindRunIs(s, k, k, at);
  }

  /** A span fenced with `k` backticks around a content with only shorter runs is read back, up to the
      reader's own treatment of the content. */
  lemma SpanReadBack(s: string, content: string, k: nat, at: nat)
    requires k > 0 && content != "" && content[|content| - 1] != TICK && Longest(content) < k
    requires TickRun(s, 0) == k && at == k + |content| && at + k <= |s|
    requires s[k..at] == content && TickRun(s, at) == k
    ensures ReadCodeSpan(s) == Some((Unpadded(LineEndingsToSpaces(content)), s[at + k..]))
  {
    SpanCloses(s, content, k, at);
  }

  /** The fences of a printed span are maximal runs. */
  lemma FencesStand(content: string, k: nat, rest: string)
    requires content != "" && content[0] != TICK && (rest != "" ==> rest[0] != TICK)
    ensures var s, at := Ticks(k) + content + Ticks(k) + rest, k + |content|;
            && TickRun(s, 0) == k && TickRun(s, at) == k
            && s[k..at] == content && s[at + k..] == rest
  {
    var s, at := Ticks(k) + content + Ticks(k) + rest, k + |content|;
    assert s[k] == content[0];
    TickRunIs(s, 0, k);
    assert at + k < |s| ==> s[at + k] == rest[0];
    TickRunIs(s, at, k);
  }

  lemma {:induction false} LongestIsARun(s: string, from: nat)
    requires from <= |s|
    ensures exists i :: from <= i <= |s| && AllTicks(s, i, LongestFrom(s, from))
    decreases |s| - from
  {
    if from == |s| {
      assert AllTicks(s, from, LongestFrom(s, from));
    } else {
      var run := TickRun(s, from);
      assert AllTicks(s, from, run);
      var next := if run == 0 then from + 1 else from + run;
      LongestIsARun(s, next);
      var i :| next <= i <= |s| && AllTicks(s, i, LongestFrom(s, next));
      assert AllTicks(s, if LongestFrom(s, from) == run then from else i, LongestFrom(s, from));
    }
  }

  lemma LongestOfPadded(text: string)
    ensures Longest(" " + text + " ") <= Longest(text)
  {
    var s, k := " " + text + " ", Longest(" " + text + " ");
    LongestIsARun(s, 0);
    var i :| 0 <= i <= |s| && AllTicks(s, i, k);
    if k > 0 {
      assert s[0] == ' ' && s[|s| - 1] == ' ' && s[i] == TICK && s[i + k - 1] == TICK;
      forall j | i - 1 <= j < i - 1 + k
        ensures text[j] == TICK
      {
        assert text[j] == s[j + 1];
      }
      LongestBounds(text, 0, i - 1, k);
    }
  }

  lemma {:induction false} NoTicksNoRun(text: string, from: nat)
    requires TICK !in text && from <= |text|
    ensures LongestFrom(text, from) == 0
    decreases |text| - from
  {
    if from < |text| {
      assert text[from] in text;
      NoTicksNoRun(text, from + 1);
    }
  }

  /** An empty text prints two backticks, which open a longer span. */
  lemma EmptySpanLost(rest: string)
    requires rest != "" ==> rest[0] != TICK
    ensures ReadCodeSpan("``" + rest) != Some(("", rest))
  {
    TickRunIs("``" + rest, 0, 2);
  }

  /** What the reader makes of the two contents the printer emits. */
  lemma ContentStripped(text: string, content: string)
    requires Trim(text) && text != ""
    requires content == text || content == " " + text + " "
    ensures Unpadded(LineEndingsToSpaces(content)) == text
  {
    assert OneLine(content);
    OneLineKept(content);
    if content == " " + text + " " {
      assert content[1] == text[0] && content[1..|content| - 1] == text;
    }
  }

  lemma TextRoundTrip(text: string, k: nat, content: string, rest: string)
    requires Trim(text) && text != "" && (rest != "" ==> rest[0] != TICK)
    requires k > 0 && Longest(content) < k
    requires (content == text && text[0] != TICK && text[|text| - 1] != TICK) || content == " " + text + " "
    ensures ReadCodeSpan(Ticks(k) + content + Ticks(k) + rest) == Some((text, rest))
  {
    assert content[0] != TICK && content[|content| - 1] != TICK;
    FencesStand(content, k, rest);
    ContentStripped(text, content);
    SpanReadBack(Ticks(k) + content + Ticks(k) + rest, content, k, k + |content|);
  }

  /** Inline code reads back as the white-space-normalised text, whatever follows it, exactly when that
      text is not empty. */
  lemma CodeSpanRoundTrip(raw: string, rest: string)
    requires rest != "" ==> rest[0] != TICK
    ensures ReadCodeSpan(InlineCode(raw) + rest) == Some((Normalised(raw), rest)) <==> Normalised(raw) != ""
  {
    var text := Normalised(raw);
    NormalisedTrim(raw);
    if text == "" {
      assert InlineCode(raw) == "``";
      EmptySpanLost(rest);
    } else if TICK !in text {
      NoTicksNoRun(text, 0);
      assert InlineCode(raw) == Ticks(1) + text + Ticks(1);
      TextRoundTrip(text, 1, text, rest);
    } else {
      LongestOfPadded(text);
      var k, content := Longest(text) + 1, " " + text + " ";
      assert InlineCode(raw) == Ticks(k) + content + Ticks(k);
      TextRoundTrip(text, k, content, rest);
    }
  }
}
