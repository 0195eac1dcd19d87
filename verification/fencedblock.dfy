/** Fenced code blocks: the printer, and the reader of section 4.5 of CommonMark 0.31.2. */
module FencedBlock {
  import opened Options
  import opened Markdown

  const MAX_SNIPPET_CHARS: nat := 4000

  function RStrip(s: string): string {
    if s != "" && IsSpace(s[|s| - 1]) then RStrip(s[..|s| - 1]) else s
  }

  function Cut(s: string, limit: nat): string {
    if |s| <= limit then s else s[..limit]
  }

  /** The part of the snippet that is printed. */
  function Shown(raw: string, limit: nat): string {
    Cut(RStrip(raw), limit)
  }

  /** The snippet without the white space at its end, up to the limit. */
  lemma {:induction false} ShownExactly(raw: string, limit: nat) returns (core: string, tail: string)
    ensures raw == core + tail && forall i :: 0 <= i < |tail| ==> IsSpace(tail[i])
    ensures core != "" ==> !IsSpace(core[|core| - 1])
    ensures RStrip(raw) == core && Shown(raw, limit) == if |core| <= limit then core else core[..limit]
  {
    if raw != "" && IsSpace(raw[|raw| - 1]) {
      core, tail := ShownExactly(raw[..|raw| - 1], limit);
      tail := tail + [raw[|raw| - 1]];
      assert raw == core + tail;
    } else {
      core, tail := raw, "";
    }
  }

  function FenceLength(text: string): (k: nat)
    ensures k >= 3 && k > Longest(text)
  {
    if Longest(text) + 1 > 3 then Longest(text) + 1 else 3
  }

  /** Somewhere `k` backticks stand in a row. */
  ghost predicate HasTicks(text: string, k: nat) {
    exists i: nat :: i <= |text| && AllTicks(text, i, k)
  }

  /** The fence is the shortest allowed: at least three backticks, and more than stand in a row in the text. */
  lemma FenceExactly(text: string)
    ensures var k := FenceLength(text); k >= 3 && !HasTicks(text, k) && (k == 3 || HasTicks(text, k - 1))
  {
    if i: nat :| i <= |text| && AllTicks(text, i, FenceLength(text)) {
      LongestBounds(text, 0, i, FenceLength(text));
    }
    LongestIsARun(text, 0);
    assert HasTicks(text, Longest(text));
  }

  function CodeBlock(raw: string, limit: nat): seq<string> {
    var text := Shown(raw, limit);
    var fence := Ticks(FenceLength(text));
    [fence, text, fence]
  }

  // --- lines ---------------------------------------------------------------------------------

  predicate IsLineEnding(c: char) { c == '\n' || c == '\r' }

  /** Where the line that starts at `i` ends, before its line ending. */
  function LineEnd(s: string, i: nat): (e: nat)
    requires i <= |s|
    ensures i <= e <= |s| && (e < |s| ==> IsLineEnding(s[e]))
    ensures forall j :: i <= j < e ==> !IsLineEnding(s[j])
    decreases |s| - i
  {
    if i < |s| && !IsLineEnding(s[i]) then LineEnd(s, i + 1) else i
  }

  /** A line ending is `\n`, `\r` or `\r\n`. */
  function NextLine(s: string, e: nat): (p: nat)
    requires e < |s|
    ensures e < p <= |s|
  {
    if s[e] == '\r' && e + 1 < |s| && s[e + 1] == '\n' then e + 2 else e + 1
  }

  function Indent(line: string, i: nat): (j: nat)
    requires i <= |line|
    ensures i <= j <= |line|
    decreases |line| - i
  {
    if i < |line| && line[i] == ' ' then Indent(line, i + 1) else i
  }

  /** At most three blanks, at least `k` backticks, and nothing but blanks and tabs after them. */
  predicate ClosesFence(line: string, k: nat) {
    var i := Indent(line, 0);
    var run := TickRun(line, i);
    i <= 3 && run >= k && forall j :: i + run <= j < |line| ==> line[j] == ' ' || line[j] == '\t'
  }

  /** The start of the first closing line at or after the line that starts at `p`. */
  function FindClose(s: string, p: nat, k: nat): (r: Option<nat>)
    requires p <= |s|
    ensures r.Some? ==> p <= r.value <= |s|
    decreases |s| - p
  {
    var e := LineEnd(s, p);
    if ClosesFence(s[p..e], k) then Some(p)
    else if e == |s| then None
    else FindClose(s, NextLine(s, e), k)
  }

  /** Reads the backtick-fenced block that begins `s`: its lines with their endings, and what follows
      the closing fence line. The info string, here never used, may not contain backticks. */
  function ReadBlock(s: string): Option<(string, string)> {
    var k, e := TickRun(s, 0), LineEnd(s, 0);
    if k < 3 || TICK in s[k..e] || e == |s| then None
    else
      var start := NextLine(s, e);
      var close := FindClose(s, start, k);
      if close.None? then None else Some((s[start..close.value], s[LineEnd(s, close.value)..]))
  }

  // --- round trip ----------------------------------------------------------------------------

  lemma {:induction false} LineEndIs(s: string, i: nat, e: nat)
    requires i <= e <= |s| && (forall j :: i <= j < e ==> !IsLineEnding(s[j]))
    requires e < |s| ==> IsLineEnding(s[e])
    ensures LineEnd(s, i) == e
    decreases e - i
  {
    if i < e {
      LineEndIs(s, i + 1, e);
    }
  }

  /** Nowhere between `from` and `to` do `k` backticks stand in a row. */
  ghost predicate ShortRuns(s: string, from: nat, to: nat, k: nat) {
    forall i: nat :: from <= i && i + k <= to ==> !AllTicks(s, i, k)
  }

  lemma TextRunsShort(s: string, start: nat, text: string, k: nat)
    requires start + |text| <= |s| && s[start..start + |text|] == text && k > Longest(text)
    ensures ShortRuns(s, start, start + |text|, k)
  {
    forall i: nat | start <= i && i + k <= start + |text|
      ensures !AllTicks(s, i, k)
    {
      if AllTicks(s, i, k) {
        forall j | i - start <= j < i - start + k
          ensures text[j] == TICK
        {
          assert text[j] == s[start + j];
        }
        LongestBounds(text, 0, i - start, k);
      }
    }
  }

  /** A line among short runs is no closing fence. */
  lemma LineInside(s: string, p: nat, e: nat, to: nat, k: nat)
    requires p <= e <= to <= |s| && ShortRuns(s, p, to, k)
    ensures !ClosesFence(s[p..e], k)
  {
    var line := s[p..e];
    var i := Indent(line, 0);
    if TickRun(line, i) >= k {
      forall j | p + i <= j < p + i + k
        ensures s[j] == TICK
      {
        assert s[j] == line[j - p];
      }
      assert AllTicks(s, p + i, k);
    }
  }

  lemma {:induction false} FindCloseIs(s: string, p: nat, k: nat, stop: nat)
    requires p <= stop <= |s| && (p < stop ==> s[stop - 1] == '\n' && ShortRuns(s, p, stop - 1, k))
    requires FindClose(s, stop, k) == Some(stop)
    ensures FindClose(s, p, k) == Some(stop)
    decreases |s| - p
  {
    if p < stop {
      var e := LineEnd(s, p);
      assert e <= stop - 1;
      LineInside(s, p, e, stop - 1, k);
      FindCloseIs(s, NextLine(s, e), k, stop);
    }
  }

  lemma FenceCloses(k: nat)
    ensures k > 0 ==> ClosesFence(Ticks(k), k)
  {
    TickRunIs(Ticks(k), 0, k);
  }

  /** Where the parts of a printed block are. */
  lemma BlockParts(k: nat, text: string, rest: string)
    ensures var s := Ticks(k) + "\n" + text + "\n" + Ticks(k) + rest;
            var start, stop := k + 1, k + |text| + 2;
            && |s| == stop + k + |rest| && s[k] == s[stop - 1] == '\n'
            && s[start..stop - 1] == text && s[start..stop] == text + "\n"
            && AllTicks(s, stop, k) && s[stop + k..] == rest && (rest != "" ==> s[stop + k] == rest[0])
  {
    var s := Ticks(k) + "\n" + text + "\n" + Ticks(k) + rest;
    assert s == Ticks(k) + ("\n" + text + "\n" + Ticks(k) + rest);
    assert s[k + 1..] == text + "\n" + Ticks(k) + rest;
    assert s[k + |text| + 2..] == Ticks(k) + rest;
  }

  lemma ClosingLine(s: string, k: nat, stop: nat)
    requires k > 0 && AllTicks(s, stop, k) && (stop + k < |s| ==> IsLineEnding(s[stop + k]))
    ensures LineEnd(s, stop) == stop + k && FindClose(s, stop, k) == Some(stop)
  {
    LineEndIs(s, stop, stop + k);
    assert s[stop..stop + k] == Ticks(k);
    FenceCloses(k);
  }

  /** The opening fence line: `k` backticks and no info string. */
  lemma OpeningLine(s: string, k: nat)
    requires k < |s| && AllTicks(s, 0, k) && s[k] == '\n'
    ensures TickRun(s, 0) == k && LineEnd(s, 0) == k && NextLine(s, k) == k + 1 && TICK !in s[k..k]
  {
    TickRunIs(s, 0, k);
    LineEndIs(s, 0, k);
  }

  /** The reader, put together from where it finds its lines. */
  lemma ReadPrinted(s: string, k: nat, stop: nat, e: nat, content: string, rest: string)
    requires 3 <= k < |s| && AllTicks(s, 0, k) && s[k] == '\n' && k + 1 <= stop <= e <= |s|
    requires FindClose(s, k + 1, k) == Some(stop) && LineEnd(s, stop) == e
    requires s[k + 1..stop] == content && s[e..] == rest
    ensures ReadBlock(s) == Some((content, rest))
  {
    OpeningLine(s, k);
  }

  lemma PrintedCloses(s: string, k: nat, stop: nat)
    requires 0 < k < stop <= |s| && s[stop - 1] == '\n' && ShortRuns(s, k + 1, stop - 1, k)
    requires AllTicks(s, stop, k) && (stop + k < |s| ==> IsLineEnding(s[stop + k]))
    ensures FindClose(s, k + 1, k) == Some(stop) && LineEnd(s, stop) == stop + k
  {
    ClosingLine(s, k, stop);
    FindCloseIs(s, k + 1, k, stop);
  }

  lemma PrintedReads(s: string, k: nat, stop: nat, content: string, rest: string)
    requires 3 <= k < stop <= |s| && AllTicks(s, 0, k) && s[k] == s[stop - 1] == '\n'
    requires ShortRuns(s, k + 1, stop - 1, k)
    requires AllTicks(s, stop, k) && (stop + k < |s| ==> IsLineEnding(s[stop + k]))
    requires s[k + 1..stop] == content && s[stop + k..] == rest
    ensures ReadBlock(s) == Some((content, rest))
  {
    PrintedCloses(s, k, stop);
    ReadPrinted(s, k, stop, stop + k, content, rest);
  }

  /** A block printed on its own lines reads back as exactly the text shown and its line ending, and the
      reader stops at the printed fence. */
  lemma FencedRoundTrip(raw: string, limit: nat, rest: string)
    requires rest != "" ==> IsLineEnding(rest[0])
    ensures var lines := CodeBlock(raw, limit);
            ReadBlock(lines[0] + "\n" + lines[1] + "\n" + lines[2] + rest) == Some((Shown(raw, limit) + "\n", rest))
  {
    var text := Shown(raw, limit);
    var k := FenceLength(text);
    var s, stop := Ticks(k) + "\n" + text + "\n" + Ticks(k) + rest, k + |text| + 2;
    BlockParts(k, text, rest);
    TextRunsShort(s, k + 1, text, k);
    PrintedReads(s, k, stop, text + "\n", rest);
  }

  /** No line that lies within text of shorter runs closes the fence. */
  lemma TextDoesNotClose(line: string, text: string, at: nat, k: nat)
    requires at + |line| <= |text| && text[at..at + |line|] == line && k > Longest(text)
    ensures !ClosesFence(line, k)
  {
    TextRunsShort(text, 0, text, k);
    LineInside(text, at, at + |line|, |text|, k);
  }
}
