/** The mentions that are left in printed prose, for a reader who takes the blocks of CommonMark 0.31.2 first
    (paragraphs, fenced and indented code) and looks for code spans in one paragraph at a time. */
module Mentions {
  import opened Options
  import opened Strings
  import opened Markdown
  import opened FencedBlock
  import opened BlockScan
  import opened Prose

  // --- one paragraph -------------------------------------------------------------------------

  /** From position `i`, which lies outside the code spans of `s`, the reader meets an at sign outside them
      that reads as a mention: no word character before it, one after it. With `behindTick`, only one that
      stands right behind a backtick. */
  predicate PlainMention(s: string, i: nat, word: char -> bool, behindTick: bool)
    requires i <= |s|
    decreases |s| - i
  {
    if i == |s| then false
    else if s[i] == TICK then PlainMention(s, AfterTicks(s, i), word, behindTick)
    else MentionsHere(s, i, word, behindTick) || PlainMention(s, i + 1, word, behindTick)
  }

  predicate MentionsHere(s: string, i: nat, word: char -> bool, behindTick: bool) {
    && i + 1 < |s| && s[i] == '@' && word(s[i + 1])
    && (i > 0 ==> !word(s[i - 1]))
    && (behindTick ==> i > 0 && s[i - 1] == TICK)
  }

  /** `t` is `s` as printed. */
  ghost predicate Printed(t: string, s: string, word: char -> bool) {
    && Place(s, |s|, word) == |t|
    && forall i: nat :: i < |s| ==> PrintedAt(t, s, i, word)
  }

  predicate PrintedAt(t: string, s: string, i: nat, word: char -> bool)
    requires i < |s|
  {
    var p := Place(s, i, word);
    && p < |t| && t[p] == s[i]
    && (MentionAt(s, i, word) ==> p + 1 < |t| && t[p + 1] == ZWSP)
  }

  lemma {:induction false} PlaceGrows(s: string, i: nat, j: nat, word: char -> bool)
    requires i <= j <= |s|
    ensures Place(s, i, word) + (j - i) <= Place(s, j, word)
  {
    if i < j {
      PlaceGrows(s, i, j - 1, word);
    }
  }

  /** Printing keeps backtick runs as they are. */
  lemma {:induction false} TicksPlaced(t: string, s: string, i: nat, word: char -> bool)
    requires Printed(t, s, word) && i <= |s|
    ensures var p, k := Place(s, i, word), TickRun(s, i);
            p + k <= |t| && TickRun(t, p) == k && Place(s, i + k, word) == p + k
    decreases |s| - i
  {
    PlaceGrows(s, i, |s|, word);
    if i < |s| {
      assert PrintedAt(t, s, i, word);
      if s[i] == TICK {
        TicksPlaced(t, s, i + 1, word);
      }
    }
  }

  /** The search for a run of `k` backticks passes over what is printed for one character. */
  lemma FindSkips(t: string, s: string, i: nat, k: nat, word: char -> bool)
    requires Printed(t, s, word) && i < |s| && s[i] != TICK
    ensures Place(s, i + 1, word) <= |t| && Place(s, i, word) <= |t|
    ensures FindRun(t, Place(s, i, word), k) == FindRun(t, Place(s, i + 1, word), k)
  {
    var p := Place(s, i, word);
    assert PrintedAt(t, s, i, word);
    assert TickRun(t, p) == 0;
    if MentionAt(s, i, word) {
      assert TickRun(t, p + 1) == 0;
    }
  }

  /** So a run is found in the printed text where it is in the text. */
  lemma {:induction false} FindPlaced(t: string, s: string, i: nat, k: nat, word: char -> bool)
    requires Printed(t, s, word) && i <= |s| && Place(s, i, word) <= |t|
    ensures FindRun(t, Place(s, i, word), k) == Placed(s, FindRun(s, i, k), word)
    decreases |s| - i
  {
    if i < |s| {
      if s[i] != TICK {
        FindSkips(t, s, i, k, word);
        FindPlaced(t, s, i + 1, k, word);
      } else {
        TicksPlaced(t, s, i, word);
        PlaceGrows(s, i, |s|, word);
        FindPlaced(t, s, i + TickRun(s, i), k, word);
      }
    }
  }

  function Placed(s: string, r: Option<nat>, word: char -> bool): Option<nat>
    requires r.Some? ==> r.value <= |s|
  {
    if r.Some? then Some(Place(s, r.value, word)) else None
  }

  /** And a reader of the printed text leaves its code spans where a reader of the text does. */
  lemma SpansPlaced(t: string, s: string, i: nat, word: char -> bool)
    requires Printed(t, s, word) && i < |s| && s[i] == TICK
    ensures var p := Place(s, i, word);
            && p < |t| && t[p] == TICK
            && AfterTicks(t, p) == Place(s, AfterTicks(s, i), word)
  {
    assert PrintedAt(t, s, i, word);
    TicksPlaced(t, s, i, word);
    FindPlaced(t, s, i + TickRun(s, i), TickRun(s, i), word);
    if SpanClose(s, i).Some? {
      ClosePlaced(t, s, i, word);
    }
  }

  lemma ClosePlaced(t: string, s: string, i: nat, word: char -> bool)
    requires Printed(t, s, word) && i <= |s| && SpanClose(s, i).Some?
    ensures var k, close := TickRun(s, i), SpanClose(s, i).value;
            Place(s, close + k, word) == Place(s, close, word) + k
  {
    FoundRun(s, i + TickRun(s, i), TickRun(s, i));
    TicksPlaced(t, s, SpanClose(s, i).value, word);
  }

  /** An at sign that is not defused still mentions someone exactly when it stands behind a backtick. */
  lemma MentionPlaced(t: string, s: string, i: nat, word: char -> bool)
    requires WordClass(word) && Printed(t, s, word) && i < |s| && s[i] != TICK
    ensures MentionsHere(t, Place(s, i, word), word, false) <==> MentionsHere(s, i, word, true)
  {
    assert PrintedAt(t, s, i, word);
    if i > 0 {
      assert PrintedAt(t, s, i - 1, word);
    }
    if i + 1 < |s| {
      assert PrintedAt(t, s, i + 1, word);
    }
  }

  lemma {:induction false} MentionsPlaced(t: string, s: string, i: nat, word: char -> bool)
    requires WordClass(word) && Printed(t, s, word) && i <= |s| && Place(s, i, word) <= |t|
    ensures PlainMention(t, Place(s, i, word), word, false) <==> PlainMention(s, i, word, true)
    decreases |s| - i
  {
    if i < |s| {
      assert PrintedAt(t, s, i, word);
      if s[i] == TICK {
        SpansPlaced(t, s, i, word);
        MentionsPlaced(t, s, AfterTicks(s, i), word);
      } else {
        PlaceGrows(s, i + 1, |s|, word);
        MentionPlaced(t, s, i, word);
        MentionsPlaced(t, s, i + 1, word);
      }
    }
  }

  function Defused(s: string, word: char -> bool): string {
    DefuseFrom(s, 0, word)
  }

  /** A printed paragraph still mentions someone outside its code spans if and only if the paragraph has,
      outside its own, an at sign with a word character after it right behind a backtick. */
  lemma ParagraphMentions(s: string, word: char -> bool)
    requires WordClass(word)
    ensures PlainMention(Defused(s, word), 0, word, false) <==> PlainMention(s, 0, word, true)
  {
    var t := Defused(s, word);
    PrintedFrom(s, |s|, word);
    forall i: nat | i < |s|
      ensures PrintedAt(t, s, i, word)
    {
      DefuseOnlyInserts(s, i, word);
    }
    MentionsPlaced(t, s, 0, word);
  }

  // --- blocks --------------------------------------------------------------------------------

  predicate IsBlank(c: char) {
    c == ' ' || c == '\t'
  }

  predicate BlankLine(line: string) {
    forall j :: 0 <= j < |line| ==> IsBlank(line[j])
  }

  /** Four columns of white space, a tab reaching the fourth. */
  predicate Indented(line: string) {
    var i := Indent(line, 0);
    i >= 4 || (i < |line| && line[i] == '\t')
  }

  /** The line goes on with a paragraph: it is neither blank nor the opening of a fenced block. */
  predicate Continues(line: string) {
    !BlankLine(line) && Opened(line).Outside?
  }

  /** The line begins a paragraph: besides, it is not indented code. */
  predicate BeginsParagraph(line: string) {
    Continues(line) && !Indented(line)
  }

  /** Where the paragraph that the first line of `s` belongs to ends. */
  function ParagraphEnd(s: string): (end: nat)
    ensures LineEnd(s, 0) <= end <= |s| && (end < |s| ==> IsLineEnding(s[end]))
    decreases |s|
  {
    var e := LineEnd(s, 0);
    if e == |s| then e
    else
      var n := NextLine(s, e);
      if Continues(s[n..][..LineEnd(s[n..], 0)]) then n + ParagraphEnd(s[n..]) else e
  }

  /** Some at sign in a paragraph of `s`, outside its code spans, reads as a mention, when `st` is open
      before the text. With `behindTick`, one that stands right behind a backtick. */
  predicate MessageMention(s: string, st: Fence, word: char -> bool, behindTick: bool)
    requires Proper(st)
    decreases |s|
  {
    var e := LineEnd(s, 0);
    if st.Outside? && BeginsParagraph(s[..e]) then
      var end := ParagraphEnd(s);
      || PlainMention(s[..end], 0, word, behindTick)
      || (end < |s| && MessageMention(s[NextLine(s, end)..], Outside, word, behindTick))
    else
      e < |s| && MessageMention(s[NextLine(s, e)..], AfterLine(s[..e], st), word, behindTick)
  }

  // --- printing keeps the lines --------------------------------------------------------------

  /** The two parts meet at a line ending. */
  predicate MeetAtEnding(a: string, b: string) {
    a == "" || b == "" || IsLineEnding(a[|a| - 1]) || IsLineEnding(b[0])
  }

  lemma MentionSplit(a: string, b: string, i: nat, word: char -> bool)
    requires WordClass(word) && MeetAtEnding(a, b) && i < |a| + |b|
    ensures MentionAt(a + b, i, word) <==> if i < |a| then MentionAt(a, i, word) else MentionAt(b, i - |a|, word)
  {
    var s := a + b;
    assert i + 1 < |s| ==> s[i + 1] == if i + 1 < |a| then a[i + 1] else b[i + 1 - |a|];
    assert i > 0 ==> s[i - 1] == if i - 1 < |a| then a[i - 1] else b[i - 1 - |a|];
  }

  lemma {:induction false} DefuseRight(a: string, b: string, i: nat, word: char -> bool)
    requires WordClass(word) && MeetAtEnding(a, b) && i <= |b|
    ensures DefuseFrom(a + b, |a| + i, word) == DefuseFrom(b, i, word)
    decreases |b| - i
  {
    if i < |b| {
      MentionSplit(a, b, |a| + i, word);
      DefuseRight(a, b, i + 1, word);
    }
  }

  lemma {:induction false} DefuseLeft(a: string, b: string, i: nat, word: char -> bool)
    requires WordClass(word) && MeetAtEnding(a, b) && i <= |a|
    ensures DefuseFrom(a + b, i, word) == DefuseFrom(a, i, word) + Defused(b, word)
    decreases |a| - i
  {
    if i < |a| {
      MentionSplit(a, b, i, word);
      DefuseLeft(a, b, i + 1, word);
    } else {
      DefuseRight(a, b, 0, word);
    }
  }

  lemma DefusedParts(a: string, b: string, word: char -> bool)
    requires WordClass(word) && MeetAtEnding(a, b)
    ensures Defused(a + b, word) == Defused(a, word) + Defused(b, word)
  {
    DefuseLeft(a, b, 0, word);
  }

  lemma {:induction false} NoEndings(s: string, i: nat, word: char -> bool)
    requires i <= |s| && forall j :: i <= j < |s| ==> !IsLineEnding(s[j])
    ensures forall j :: 0 <= j < |DefuseFrom(s, i, word)| ==> !IsLineEnding(DefuseFrom(s, i, word)[j])
    decreases |s| - i
  {
    if i < |s| {
      NoEndings(s, i + 1, word);
    }
  }

  /** A line, what ends it, and the lines below are printed one after the other. */
  lemma LineDefused(line: string, ending: string, below: string, word: char -> bool)
    requires WordClass(word) && ending != "" && forall j :: 0 <= j < |ending| ==> IsLineEnding(ending[j])
    ensures Defused(line + ending, word) == Defused(line, word) + ending
    ensures Defused(line + (ending + below), word) == Defused(line, word) + (ending + Defused(below, word))
  {
    NoAtKept(ending, 0, word);
    DefusedParts(line, ending, word);
    DefusedParts(ending, below, word);
    DefusedParts(line, ending + below, word);
  }

  /** A line, what ends it and the lines below are read where they stand. */
  lemma NextLineStands(line: string, ending: string, below: string)
    requires forall j :: 0 <= j < |line| ==> !IsLineEnding(line[j])
    requires ending == "\n" || ending == "\r\n" || (ending == "\r" && (below != "" ==> below[0] != '\n'))
    ensures var s := line + (ending + below);
            && LineEnd(s, 0) == |line| && s[..|line|] == line
            && NextLine(s, |line|) == |line| + |ending| && s[NextLine(s, |line|)..] == below
  {
    var s := line + (ending + below);
    assert s[|line|] == ending[0];
    LineEndIs(s, 0, |line|);
    assert |ending| == 2 ==> s[|line| + 1] == ending[1];
    assert |ending| == 1 && below != "" ==> s[|line| + 1] == below[0];
  }

  lemma EndingIs(s: string, e: nat)
    requires e < |s| && IsLineEnding(s[e])
    ensures var n := NextLine(s, e);
            s[e..n] == "\n" || s[e..n] == "\r\n" || (s[e..n] == "\r" && (s[n..] != "" ==> s[n..][0] != '\n'))
  {
  }

  /** The paragraph or line of `s` that ends at `end` is printed up to where that of `t` ends, and so is
      what follows it. */
  ghost predicate EndsAlike(s: string, t: string, end: nat, word: char -> bool) {
    && end <= |s|
    && var d := |Defused(s[..end], word)|;
    && d <= |t| && t[..d] == Defused(s[..end], word) && (end < |s| <==> d < |t|)
    && (end < |s| ==> t[NextLine(t, d)..] == Defused(s[NextLine(s, end)..], word))
  }

  lemma LastLineKept(s: string, word: char -> bool)
    requires LineEnd(s, 0) == |s|
    ensures LineEnd(Defused(s, word), 0) == |Defused(s, word)| && EndsAlike(s, Defused(s, word), |s|, word)
  {
    NoEndings(s, 0, word);
    LineEndIs(Defused(s, word), 0, |Defused(s, word)|);
    assert s[..|s|] == s;
  }

  lemma EndedLineKept(line: string, ending: string, below: string, word: char -> bool)
    requires WordClass(word) && forall j :: 0 <= j < |line| ==> !IsLineEnding(line[j])
    requires ending == "\n" || ending == "\r\n" || (ending == "\r" && (below != "" ==> below[0] != '\n'))
    ensures var d, t := |Defused(line, word)|, Defused(line + (ending + below), word);
            && LineEnd(t, 0) == d < |t| && t[..d] == Defused(line, word)
            && NextLine(t, d) == |Defused(line + ending, word)| && t[NextLine(t, d)..] == Defused(below, word)
            && t == Defused(line + ending, word) + Defused(below, word)
  {
    NoEndings(line, 0, word);
    LineDefused(line, ending, below, word);
    if below != "" {
      DefusedHead(below, 0, word);
    } else {
      assert Defused(below, word) == "";
    }
    NextLineStands(Defused(line, word), ending, Defused(below, word));
    Associates(Defused(line, word), ending, Defused(below, word));
  }

  /** The first line with its ending, and the lines below, are printed apart. */
  lemma HeadKept(s: string, head: string, below: string, word: char -> bool)
    requires WordClass(word) && LineEnd(s, 0) < |s|
    requires head == s[..NextLine(s, LineEnd(s, 0))] && below == s[NextLine(s, LineEnd(s, 0))..]
    ensures var t, d := Defused(s, word), |Defused(s[..LineEnd(s, 0)], word)|;
            && s == head + below && IsLineEnding(head[|head| - 1])
            && t == Defused(head, word) + Defused(below, word)
            && LineEnd(t, 0) == d < |t| && t[..d] == Defused(s[..LineEnd(s, 0)], word)
            && NextLine(t, d) == |Defused(head, word)| && t[NextLine(t, d)..] == Defused(below, word)
  {
    var e := LineEnd(s, 0);
    var n := NextLine(s, e);
    EndingIs(s, e);
    CutTwice(s, e, n);
    EndedLineKept(s[..e], s[e..n], below, word);
  }

  lemma CutTwice(s: string, e: nat, n: nat)
    requires e < n <= |s|
    ensures s[..n] == s[..e] + s[e..n] && s == s[..e] + (s[e..n] + s[n..]) == s[..n] + s[n..]
    ensures s[..n] != "" && s[..n][n - 1] == s[n - 1] && s[e..n][n - e - 1] == s[n - 1]
  {
  }

  /** The first line of the printed text is the first line as printed, and so are the lines below it. */
  lemma FirstLineKept(s: string, word: char -> bool)
    requires WordClass(word)
    ensures var e, t := LineEnd(s, 0), Defused(s, word);
            LineEnd(t, 0) == |Defused(s[..e], word)| && EndsAlike(s, t, e, word)
  {
    var e := LineEnd(s, 0);
    if e == |s| {
      assert s[..e] == s;
      LastLineKept(s, word);
    } else {
      HeadKept(s, s[..NextLine(s, e)], s[NextLine(s, e)..], word);
    }
  }

  // --- printing keeps the blocks -------------------------------------------------------------

  lemma {:induction false} PlaceSame(s: string, i: nat, word: char -> bool)
    requires i <= |s| && forall j :: 0 <= j < i ==> s[j] != '@'
    ensures Place(s, i, word) == i
  {
    if i > 0 {
      PlaceSame(s, i - 1, word);
    }
  }

  /** Up to the first at sign, and with it, the printed text is the text. */
  lemma PrefixKept(s: string, i: nat, word: char -> bool)
    requires i <= |s| && forall j :: 0 <= j < i ==> s[j] != '@'
    ensures var t := Defused(s, word);
            && i <= |t| && t[i..] == DefuseFrom(s, i, word)
            && (i < |s| <==> i < |t|) && forall j :: 0 <= j <= i && j < |s| ==> t[j] == s[j]
  {
    var t := Defused(s, word);
    PlaceSame(s, i, word);
    PrintedFrom(s, i, word);
    DefusedHead(s, i, word);
    if i == |s| {
      assert t[i..] == "";
    }
    forall j | 0 <= j <= i && j < |s|
      ensures t[j] == s[j]
    {
      PlaceSame(s, j, word);
      DefuseOnlyInserts(s, j, word);
    }
  }

  lemma {:induction false} IndentIs(s: string, i: nat, j: nat)
    requires i <= j <= |s| && (forall k :: i <= k < j ==> s[k] == ' ') && (j < |s| ==> s[j] != ' ')
    ensures Indent(s, i) == j
    decreases j - i
  {
    if i < j {
      IndentIs(s, i + 1, j);
    }
  }

  lemma {:induction false} IndentBlanks(s: string, i: nat)
    requires i <= |s|
    ensures forall k :: i <= k < Indent(s, i) ==> s[k] == ' '
    ensures Indent(s, i) < |s| ==> s[Indent(s, i)] != ' '
    decreases |s| - i
  {
    if i < |s| && s[i] == ' ' {
      IndentBlanks(s, i + 1);
    }
  }

  lemma {:induction false} TildeRunIs(s: string, i: nat, k: nat)
    requires i + k <= |s| && (forall j :: i <= j < i + k ==> s[j] == TILDE) && (i + k < |s| ==> s[i + k] != TILDE)
    ensures TildeRun(s, i) == k
    decreases k
  {
    if k > 0 {
      TildeRunIs(s, i + 1, k - 1);
    }
  }

  lemma {:induction false} TildesAll(s: string, i: nat)
    requires i <= |s|
    ensures var k := TildeRun(s, i);
            (forall j :: i <= j < i + k ==> s[j] == TILDE) && (i + k < |s| ==> s[i + k] != TILDE)
    decreases |s| - i
  {
    if i < |s| && s[i] == TILDE {
      TildesAll(s, i + 1);
    }
  }

  lemma IndentKept(s: string, word: char -> bool)
    ensures Indent(Defused(s, word), 0) == Indent(s, 0)
  {
    var i := Indent(s, 0);
    IndentBlanks(s, 0);
    PrefixKept(s, i, word);
    IndentIs(Defused(s, word), 0, i);
  }

  lemma TickRunKept(s: string, word: char -> bool)
    ensures var i, t := Indent(s, 0), Defused(s, word);
            && Indent(t, 0) == i <= |t| && TickRun(t, i) == TickRun(s, i)
            && t[i + TickRun(s, i)..] == DefuseFrom(s, i + TickRun(s, i), word)
  {
    IndentKept(s, word);
    var i := Indent(s, 0);
    var k := TickRun(s, i);
    IndentBlanks(s, 0);
    PrefixKept(s, i + k, word);
    TickRunIs(Defused(s, word), i, k);
  }

  lemma TildeRunKept(s: string, word: char -> bool)
    ensures var i, t := Indent(s, 0), Defused(s, word);
            && Indent(t, 0) == i <= |t| && TildeRun(t, i) == TildeRun(s, i)
            && t[i + TildeRun(s, i)..] == DefuseFrom(s, i + TildeRun(s, i), word)
  {
    IndentKept(s, word);
    var i := Indent(s, 0);
    var k := TildeRun(s, i);
    IndentBlanks(s, 0);
    TildesAll(s, i);
    PrefixKept(s, i + k, word);
    TildeRunIs(Defused(s, word), i, k);
  }

  lemma {:induction false} TickInKept(s: string, i: nat, word: char -> bool)
    requires i <= |s|
    ensures TICK in DefuseFrom(s, i, word) <==> TICK in s[i..]
    decreases |s| - i
  {
    if i < |s| {
      TickInKept(s, i + 1, word);
      assert s[i..] == [s[i]] + s[i + 1..];
    }
  }

  lemma {:induction false} BlanksKept(s: string, i: nat, word: char -> bool)
    requires i <= |s|
    ensures BlankLine(DefuseFrom(s, i, word)) <==> BlankLine(s[i..])
    decreases |s| - i
  {
    if i < |s| {
      BlanksKept(s, i + 1, word);
      BlankHead(s[i], s[i + 1..]);
      assert s[i..] == [s[i]] + s[i + 1..];
      var rest := DefuseFrom(s, i + 1, word);
      if MentionAt(s, i, word) {
        assert DefuseFrom(s, i, word)[0] == '@';
      } else {
        assert DefuseFrom(s, i, word) == [s[i]] + rest;
        BlankHead(s[i], rest);
      }
    }
  }

  lemma BlankHead(c: char, rest: string)
    ensures BlankLine([c] + rest) <==> IsBlank(c) && BlankLine(rest)
  {
    var s := [c] + rest;
    assert s[0] == c && forall j :: 0 <= j < |rest| ==> s[j + 1] == rest[j];
  }

  /** What decides which block a line opens. */
  function OpenedBy(indent: nat, ticks: nat, tildes: nat, tickBehind: bool): Fence {
    if indent <= 3 && ticks >= 3 && !tickBehind then Inside(false, ticks)
    else if indent <= 3 && tildes >= 3 then Inside(true, tildes)
    else Outside
  }

  lemma OpenedIs(line: string)
    ensures var i := Indent(line, 0);
            Opened(line) == OpenedBy(i, TickRun(line, i), TildeRun(line, i), TICK in line[i + TickRun(line, i)..])
  {
  }

  lemma OpenedKept(line: string, word: char -> bool)
    ensures Opened(Defused(line, word)) == Opened(line)
  {
    TickRunKept(line, word);
    TildeRunKept(line, word);
    TickInKept(line, Indent(line, 0) + TickRun(line, Indent(line, 0)), word);
    OpenedIs(line);
    OpenedIs(Defused(line, word));
  }

  lemma BlankTail(line: string, q: nat)
    requires q <= |line|
    ensures (forall j :: q <= j < |line| ==> line[j] == ' ' || line[j] == '\t') <==> BlankLine(line[q..])
  {
    assert forall j :: q <= j < |line| ==> line[j] == line[q..][j - q];
  }

  function MarkRun(line: string, i: nat, tildes: bool): (k: nat)
    requires i <= |line|
    ensures i + k <= |line|
  {
    if tildes then TildeRun(line, i) else TickRun(line, i)
  }

  lemma ClosesIs(line: string, st: Fence)
    requires st.Inside?
    ensures var i := Indent(line, 0);
            var run := MarkRun(line, i, st.tildes);
            Closes(line, st) <==> i <= 3 && run >= st.length && BlankLine(line[i + run..])
  {
    var i := Indent(line, 0);
    BlankTail(line, i + MarkRun(line, i, st.tildes));
  }

  lemma MarkRunKept(line: string, tildes: bool, word: char -> bool)
    ensures var i, t := Indent(line, 0), Defused(line, word);
            && Indent(t, 0) == i <= |t| && MarkRun(t, i, tildes) == MarkRun(line, i, tildes)
            && t[i + MarkRun(line, i, tildes)..] == DefuseFrom(line, i + MarkRun(line, i, tildes), word)
  {
    if tildes {
      TildeRunKept(line, word);
    } else {
      TickRunKept(line, word);
    }
  }

  lemma ClosesKept(line: string, st: Fence, word: char -> bool)
    requires st.Inside?
    ensures Closes(Defused(line, word), st) <==> Closes(line, st)
  {
    MarkRunKept(line, st.tildes, word);
    ClosesIs(line, st);
    ClosesIs(Defused(line, word), st);
    BlanksKept(line, Indent(line, 0) + MarkRun(line, Indent(line, 0), st.tildes), word);
  }

  lemma LineKept(line: string, st: Fence, word: char -> bool)
    requires Proper(st)
    ensures var t := Defused(line, word);
            AfterLine(t, st) == AfterLine(line, st) && Continues(t) == Continues(line)
            && BeginsParagraph(t) == BeginsParagraph(line)
  {
    OpenedKept(line, word);
    if st.Inside? {
      ClosesKept(line, st, word);
    }
    BlanksKept(line, 0, word);
    assert line[0..] == line;
    IndentedKept(line, word);
  }

  lemma IndentedKept(line: string, word: char -> bool)
    ensures Indented(Defused(line, word)) == Indented(line)
  {
    IndentBlanks(line, 0);
    IndentKept(line, word);
    PrefixKept(line, Indent(line, 0), word);
  }

  /** A text whose first line, with what ends it, is `head`, and what its paragraph is then. */
  lemma ParagraphOn(s: string, head: string, below: string)
    requires s == head + below && LineEnd(s, 0) < |s| && NextLine(s, LineEnd(s, 0)) == |head|
    ensures ParagraphEnd(s) == if GoesOn(below) then |head| + ParagraphEnd(below) else LineEnd(s, 0)
  {
    assert s[|head|..] == below;
  }

  /** What is read at the end of a line of `below` is read there when `head` stands above it. */
  lemma BelowStands(head: string, below: string, end: nat)
    requires end <= |below|
    ensures var s := head + below;
            && s[..|head| + end] == head + below[..end]
            && (end < |below| ==>
                  NextLine(s, |head| + end) == |head| + NextLine(below, end)
                  && s[NextLine(s, |head| + end)..] == below[NextLine(below, end)..])
  {
    var s := head + below;
    assert s[|head|..] == below;
    assert end < |below| ==> s[|head| + end] == below[end];
    assert end + 1 < |below| ==> s[|head| + end + 1] == below[end + 1];
  }

  lemma EndsBelow(s: string, t: string, head: string, below: string, end: nat, end': nat, word: char -> bool)
    requires WordClass(word) && head != "" && IsLineEnding(head[|head| - 1]) && s == head + below
    requires t == Defused(head, word) + Defused(below, word) && end' == |head| + end
    requires EndsAlike(below, Defused(below, word), end, word)
    ensures EndsAlike(s, t, end', word)
    ensures |Defused(s[..end'], word)| == |Defused(head, word)| + |Defused(below[..end], word)|
  {
    BelowStands(head, below, end);
    BelowStands(Defused(head, word), Defused(below, word), |Defused(below[..end], word)|);
    DefusedParts(head, below[..end], word);
  }

  /** The paragraph of `s` ends at `end`, and that of the printed text at `printed`, where the printing of
      the paragraph ends. */
  ghost predicate ParagraphAlike(s: string, end: nat, printed: nat, word: char -> bool) {
    EndsAlike(s, Defused(s, word), end, word) && printed == |Defused(s[..end], word)|
  }

  /** The paragraph goes on below the first line. */
  lemma AlikeBelow(s: string, n: nat, below: string, end: nat, printed: nat, end': nat, printed': nat,
                   word: char -> bool)
    requires WordClass(word) && LineEnd(s, 0) < |s| && n == NextLine(s, LineEnd(s, 0)) && below == s[n..]
    requires ParagraphAlike(below, end, printed, word)
    requires end' == n + end && printed' == |Defused(s[..n], word)| + printed
    ensures ParagraphAlike(s, end', printed', word)
  {
    HeadKept(s, s[..n], below, word);
    EndsBelow(s, Defused(s, word), s[..n], below, end, end', word);
  }

  /** It ends with the first line, being the last or followed by one that does not go on with it. */
  lemma AlikeHere(s: string, word: char -> bool)
    requires WordClass(word)
    ensures ParagraphAlike(s, LineEnd(s, 0), LineEnd(Defused(s, word), 0), word)
  {
    FirstLineKept(s, word);
  }

  lemma LastParagraph(s: string, word: char -> bool)
    requires WordClass(word) && LineEnd(s, 0) == |s|
    ensures ParagraphEnd(s) == LineEnd(s, 0) && ParagraphEnd(Defused(s, word)) == LineEnd(Defused(s, word), 0)
  {
    LastLineKept(s, word);
  }

  /** A paragraph of the printed text is the paragraph as printed, and so is what follows it. */
  lemma {:induction false} ParagraphKept(s: string, word: char -> bool)
    requires WordClass(word)
    ensures ParagraphAlike(s, ParagraphEnd(s), ParagraphEnd(Defused(s, word)), word)
    decreases |s|
  {
    if LineEnd(s, 0) == |s| {
      LastParagraph(s, word);
      AlikeHere(s, word);
    } else if GoesOn(s[NextLine(s, LineEnd(s, 0))..]) {
      var n := NextLine(s, LineEnd(s, 0));
      var below := s[n..];
      ParagraphKept(below, word);
      PrintedParagraphOn(s, n, word);
      AlikeBelow(s, n, below, ParagraphEnd(below), ParagraphEnd(Defused(below, word)), ParagraphEnd(s),
                 ParagraphEnd(Defused(s, word)), word);
    } else {
      PrintedParagraphOn(s, NextLine(s, LineEnd(s, 0)), word);
      AlikeHere(s, word);
    }
  }

  predicate GoesOn(below: string) {
    Continues(below[..LineEnd(below, 0)])
  }

  lemma PrintedParagraphOn(s: string, n: nat, word: char -> bool)
    requires WordClass(word) && LineEnd(s, 0) < |s| && n == NextLine(s, LineEnd(s, 0))
    ensures ParagraphEnd(s) == if GoesOn(s[n..]) then n + ParagraphEnd(s[n..]) else LineEnd(s, 0)
    ensures var t := Defused(s, word);
            ParagraphEnd(t) == if GoesOn(s[n..]) then |Defused(s[..n], word)| + ParagraphEnd(Defused(s[n..], word))
                               else LineEnd(t, 0)
  {
    HeadKept(s, s[..n], s[n..], word);
    SecondLineKept(s[n..], word);
    ParagraphOn(s, s[..n], s[n..]);
    ParagraphOn(Defused(s, word), Defused(s[..n], word), Defused(s[n..], word));
  }

  lemma SecondLineKept(below: string, word: char -> bool)
    requires WordClass(word)
    ensures var t := Defused(below, word);
            GoesOn(t) == GoesOn(below)
  {
    FirstLineKept(below, word);
    LineKept(below[..LineEnd(below, 0)], Outside, word);
  }

  /** The printed message still mentions someone in a paragraph, outside its code spans, if and only if
      the message has there an at sign with a word character after it right behind a backtick. */
  lemma {:induction false} MessageMentions(s: string, st: Fence, word: char -> bool)
    requires WordClass(word) && Proper(st)
    ensures MessageMention(Defused(s, word), st, word, false) <==> MessageMention(s, st, word, true)
    decreases |s|
  {
    var e := LineEnd(s, 0);
    FirstLineKept(s, word);
    LineKept(s[..e], st, word);
    if st.Outside? && BeginsParagraph(s[..e]) {
      var end := ParagraphEnd(s);
      ParagraphKept(s, word);
      ParagraphMentions(s[..end], word);
      if end < |s| {
        MessageMentions(s[NextLine(s, end)..], Outside, word);
      }
    } else if e < |s| {
      MessageMentions(s[NextLine(s, e)..], AfterLine(s[..e], st), word);
    }
  }

  /** Printed prose still mentions someone in a paragraph, outside its code spans, if and only if the text
      shown has there an at sign with a word character after it right behind a backtick. */
  lemma MentionsLeft(raw: string, limit: nat, word: char -> bool)
    requires WordClass(word)
    ensures MessageMention(PlainText(raw, limit, word), Outside, word, false) <==>
            MessageMention(Cut(LStrip(RStrip(raw)), limit), Outside, word, true)
  {
    MessageMentions(Cut(LStrip(RStrip(raw)), limit), Outside, word);
  }

  // --- three texts ---------------------------------------------------------------------------

  /** A backtick that opens no code span, and a name. */
  lemma TickMentions(word: char -> bool)
    requires WordClass(word) && word('a')
    ensures PlainMention("`@a", 0, word, true) && BeginsParagraph("`@a") && LineEnd("`@a", 0) == 3
  {
    var s := "`@a";
    TickRunIs(s, 0, 1);
    assert TickRun(s, 1) == 0 && TickRun(s, 2) == 0;
    assert FindRun(s, 3, 1) == None && FindRun(s, 2, 1) == None && FindRun(s, 1, 1) == None;
    assert PlainMention(s, 1, word, true);
    LineEndIs(s, 0, 3);
    assert TildeRun(s, 0) == 0 && Indent(s, 0) == 0 && s[0] == TICK;
  }

  /** Alone it is left as a mention. */
  lemma TickHidesMention(word: char -> bool)
    requires WordClass(word) && word('a')
    ensures MessageMention(PlainText("`@a", MAX_MESSAGE_CHARS, word), Outside, word, false)
  {
    var s := "`@a";
    assert LStrip(RStrip(s)) == s;
    TickMentions(word);
    assert s[..3] == s && ParagraphEnd(s) == 3;
    MentionsLeft(s, MAX_MESSAGE_CHARS, word);
  }

  /** And with a backtick in the next paragraph, for no code span goes on past a blank line. */
  lemma NextParagraphIsNoHelp(word: char -> bool)
    requires WordClass(word) && word('a')
    ensures MessageMention(PlainText("`@a\n\n`", MAX_MESSAGE_CHARS, word), Outside, word, false)
  {
    var s := "`@a\n\n`";
    assert LStrip(RStrip(s)) == s;
    TickMentions(word);
    LineEndIs(s, 0, 3);
    assert s[..3] == "`@a" && NextLine(s, 3) == 4 && s[4..] == "\n`";
    assert LineEnd(s[4..], 0) == 0 && s[4..][..0] == "";
    assert ParagraphEnd(s) == 3;
    MentionsLeft(s, MAX_MESSAGE_CHARS, word);
  }

  lemma TildeFence()
    ensures Opened("~~~") == Inside(true, 3) && Closes("~~~", Inside(true, 3)) && !Closes("`@a", Inside(true, 3))
  {
    TildeRunIs("~~~", 0, 3);
    assert Indent("~~~", 0) == 0 && TickRun("~~~", 0) == 0;
    assert Indent("`@a", 0) == 0 && TildeRun("`@a", 0) == 0;
  }

  /** The first line opens a block, and the lines below it are read in the block. */
  lemma LineBelow(line: string, below: string, st: Fence, word: char -> bool, behindTick: bool)
    requires Proper(st) && (forall j :: 0 <= j < |line| ==> !IsLineEnding(line[j]))
    requires st.Inside? || Opened(line).Inside?
    ensures MessageMention(line + ("\n" + below), st, word, behindTick)
            <==> MessageMention(below, AfterLine(line, st), word, behindTick)
  {
    NextLineStands(line, "\n", below);
  }

  lemma FencedMentionsNone(word: char -> bool)
    ensures !MessageMention("~~~" + ("\n" + ("`@a" + ("\n" + "~~~"))), Outside, word, true)
  {
    TildeFence();
    LineBelow("~~~", "`@a" + ("\n" + "~~~"), Outside, word, true);
    LineBelow("`@a", "~~~", Inside(true, 3), word, true);
    LineEndIs("~~~", 0, 3);
  }

  /** But in a block of code it is none. */
  lemma FencedIsNoMention(word: char -> bool)
    requires WordClass(word)
    ensures !MessageMention(PlainText("~~~\n`@a\n~~~", MAX_MESSAGE_CHARS, word), Outside, word, false)
  {
    var s := "~~~\n`@a\n~~~";
    assert LStrip(RStrip(s)) == s;
    assert s == "~~~" + ("\n" + ("`@a" + ("\n" + "~~~")));
    FencedMentionsNone(word);
    MentionsLeft(s, MAX_MESSAGE_CHARS, word);
  }
}
