/** Which fenced code block, if any, is open behind a text (section 4.5 of CommonMark 0.31.2), and the code
    spans of a paragraph in reading order (section 6.1). */
module BlockScan {
  import opened Options
  import opened Markdown
  import opened FencedBlock

  const TILDE: char := '~'

  /** Outside every fenced block, or inside one whose fence is so many backticks or tildes. */
  datatype Fence = Outside | Inside(tildes: bool, length: nat)

  predicate Proper(st: Fence) {
    st.Inside? ==> st.length > 0
  }

  /** How many tildes start at `i`. */
  function TildeRun(s: string, i: nat): (k: nat)
    requires i <= |s|
    ensures i + k <= |s|
    decreases |s| - i
  {
    if i < |s| && s[i] == TILDE then 1 + TildeRun(s, i + 1) else 0
  }

  /** The block a line opens: at most three blanks, then at least three backticks with none behind them,
      or at least three tildes. */
  function Opened(line: string): (r: Fence)
    ensures Proper(r)
  {
    var i := Indent(line, 0);
    var ticks, tildes := TickRun(line, i), TildeRun(line, i);
    if i <= 3 && ticks >= 3 && TICK !in line[i + ticks..] then Inside(false, ticks)
    else if i <= 3 && tildes >= 3 then Inside(true, tildes)
    else Outside
  }

  predicate ClosesTildes(line: string, k: nat) {
    var i := Indent(line, 0);
    var run := TildeRun(line, i);
    i <= 3 && run >= k && forall j :: i + run <= j < |line| ==> line[j] == ' ' || line[j] == '\t'
  }

  predicate Closes(line: string, st: Fence)
    requires st.Inside?
  {
    if st.tildes then ClosesTildes(line, st.length) else ClosesFence(line, st.length)
  }

  function AfterLine(line: string, st: Fence): (r: Fence)
    requires Proper(st)
    ensures Proper(r)
  {
    if st.Outside? then Opened(line) else if Closes(line, st) then Outside else st
  }

  /** The block open behind the text, when `st` is open before it. */
  function Behind(s: string, st: Fence): (r: Fence)
    requires Proper(st)
    ensures Proper(r)
    decreases |s|
  {
    var e := LineEnd(s, 0);
    var after := AfterLine(s[..e], st);
    if e == |s| then after else Behind(s[NextLine(s, e)..], after)
  }

  /** An empty line opens and closes nothing. */
  lemma EmptyLine(st: Fence)
    requires Proper(st)
    ensures AfterLine("", st) == st && Behind("", st) == st
  {
    assert ""[..0] == "";
  }

  lemma EndsWithin(a: string, b: string)
    ensures var s := a + "\n" + b;
            LineEnd(s, 0) == LineEnd(a, 0) && s[..LineEnd(a, 0)] == a[..LineEnd(a, 0)]
  {
    var s, e := a + "\n" + b, LineEnd(a, 0);
    assert s[|a|] == '\n';
    LineEndIs(s, 0, e);
  }

  /** Text on further lines goes on where the text above it left off. */
  lemma {:induction false} BehindBoth(a: string, b: string, st: Fence)
    requires Proper(st)
    ensures Behind(a + "\n" + b, st) == Behind(b, Behind(a, st))
    decreases |a|
  {
    var s, e := a + "\n" + b, LineEnd(a, 0);
    EndsWithin(a, b);
    var after := AfterLine(a[..e], st);
    if e == |a| {
      assert s[NextLine(s, e)..] == b;
    } else if a[e] == '\r' && e + 1 == |a| {
      assert s[NextLine(s, e)..] == b;
      assert a[NextLine(a, e)..] == "";
      EmptyLine(after);
    } else {
      var n := NextLine(a, e);
      assert NextLine(s, e) == n && s[n..] == a[n..] + "\n" + b;
      BehindBoth(a[n..], b, after);
    }
  }

  /** A line that begins with none of the characters that matter. */
  predicate Inert(line: string) {
    OneLine(line) && (line != "" ==> line[0] != ' ' && line[0] != TICK && line[0] != TILDE)
  }

  lemma InertLine(line: string, st: Fence)
    requires Proper(st) && Inert(line)
    ensures Behind(line, st) == st
  {
    LineEndIs(line, 0, |line|);
    assert line[..|line|] == line;
  }

  // --- code spans in reading order -----------------------------------------------------------

  /** The contents of the code spans a reader of `s` meets, from left to right. */
  function CodeSpans(s: string): seq<string>
    decreases |s|
  {
    if s == "" then []
    else if s[0] != TICK then CodeSpans(s[1..])
    else
      var span := ReadCodeSpan(s);
      if span.Some? then [span.value.0] + CodeSpans(span.value.1) else CodeSpans(s[TickRun(s, 0)..])
  }

  lemma {:induction false} SpansPastPlain(a: string, b: string)
    requires TICK !in a
    ensures CodeSpans(a + b) == CodeSpans(b)
  {
    if a == "" {
      assert a + b == b;
    } else {
      assert (a + b)[1..] == a[1..] + b;
      SpansPastPlain(a[1..], b);
    }
  }

  lemma PrintedSpanFirst(raw: string, rest: string)
    requires Normalised(raw) != "" && (rest != "" ==> rest[0] != TICK)
    ensures CodeSpans(InlineCode(raw) + rest) == [Normalised(raw)] + CodeSpans(rest)
  {
    CodeSpanRoundTrip(raw, rest);
  }

  lemma {:induction false} LineEndingsLength(s: string)
    ensures s != "" ==> LineEndingsToSpaces(s) != ""
  {
  }

  /** No code span is empty. */
  lemma {:induction false} SpansNonEmpty(s: string)
    ensures forall c :: c in CodeSpans(s) ==> c != ""
    decreases |s|
  {
    if s != "" {
      if s[0] != TICK {
        SpansNonEmpty(s[1..]);
      } else {
        var span := ReadCodeSpan(s);
        if span.Some? {
          SpansNonEmpty(span.value.1);
          ContentNonEmpty(s);
        } else {
          SpansNonEmpty(s[TickRun(s, 0)..]);
        }
      }
    }
  }

  lemma ContentNonEmpty(s: string)
    requires ReadCodeSpan(s).Some?
    ensures ReadCodeSpan(s).value.0 != ""
  {
    var k := TickRun(s, 0);
    var close := FindRun(s, k, k).value;
    assert TickRun(s, k) == 0;
    assert close > k;
    LineEndingsLength(s[k..close]);
  }
}
