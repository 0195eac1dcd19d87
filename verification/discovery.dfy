/** Findings and the issues they are printed into. */
module Discovery {
  import opened Options
  import opened Strings
  import opened Markdown
  import opened FencedBlock
  import opened Prose
  import opened BlockScan
  import Numbers = References

  const FINGERPRINT_MARKER := "semgrep-fingerprint"

  datatype Finding = Finding(
    ruleId: string,
    message: string,
    severity: string,
    filePath: string,
    startLine: nat,
    snippet: string,
    fingerprint: string,
    helpUri: string,
    source: string)
  {
    function Title(): string {
      Cut(Normalised("[" + source + "] " + ruleId + ": " + filePath + ":" + Numbers.Print(startLine)), 200)
    }

    function Location(): string {
      filePath + ":" + Numbers.Print(startLine)
    }

    function Marker(): string {
      MarkerOf(fingerprint)
    }

    predicate HasReference() {
      "http://" <= helpUri || "https://" <= helpUri
    }
  }

  const OPEN: string := "<!-- " + FINGERPRINT_MARKER + ": "
  const CLOSE := " -->"

  function MarkerOf(fp: string): string {
    OPEN + fp + CLOSE
  }

  function JoinLines(lines: seq<string>): string {
    if lines == [] then "" else if |lines| == 1 then lines[0] else lines[0] + "\n" + JoinLines(lines[1..])
  }

  /** The captions and the untrusted texts of the lines above the message. */
  function Fields(f: Finding): seq<(string, string)> {
    [("**Rule:** ", f.ruleId), ("**Severity:** ", f.severity), ("**Location:** ", f.Location())]
    + (if f.HasReference() then [("**Reference:** ", f.helpUri)] else [])
  }

  function FieldLine(field: (string, string)): string {
    field.0 + InlineCode(field.1)
  }

  function FieldLines(fields: seq<(string, string)>): seq<string> {
    seq(|fields|, i requires 0 <= i < |fields| => FieldLine(fields[i]))
  }

  function HeadLines(f: Finding): seq<string> {
    FieldLines(Fields(f)) + ["", "### Message", ""]
  }

  function SnippetLines(f: Finding): seq<string> {
    if f.snippet == "" then [] else ["", "### Code", ""] + CodeBlock(f.snippet, MAX_SNIPPET_CHARS)
  }

  function FootLines(f: Finding): seq<string> {
    [ "", "---",
      "_Discovered automatically by the " + f.source + " discovery source. "
      + "Fix the underlying issue and open a PR referencing this issue._",
      "" ]
  }

  /** Every line of the body before the marker. */
  function ProseLines(f: Finding, word: char -> bool): seq<string> {
    HeadLines(f) + [PlainText(f.message, MAX_MESSAGE_CHARS, word)] + SnippetLines(f) + FootLines(f)
  }

  function IssueBody(f: Finding, word: char -> bool): string {
    JoinLines(ProseLines(f, word) + [f.Marker()])
  }

  /** Builds the body line by line. */
  method BuildIssueBody(f: Finding, word: char -> bool) returns (body: string)
    ensures body == IssueBody(f, word)
  {
    var lines := [ "**Rule:** " + InlineCode(f.ruleId),
                   "**Severity:** " + InlineCode(f.severity),
                   "**Location:** " + InlineCode(f.Location()) ];
    if f.helpUri != "" && f.HasReference() {
      lines := lines + ["**Reference:** " + InlineCode(f.helpUri)];
    }
    lines := lines + ["", "### Message", ""];
    assert lines == HeadLines(f);
    lines := lines + [PlainText(f.message, MAX_MESSAGE_CHARS, word)];
    if f.snippet != "" {
      lines := lines + (["", "### Code", ""] + CodeBlock(f.snippet, MAX_SNIPPET_CHARS));
    }
    assert lines == HeadLines(f) + [PlainText(f.message, MAX_MESSAGE_CHARS, word)] + SnippetLines(f);
    lines := lines + FootLines(f);
    lines := lines + [f.Marker()];
    body := JoinLines(lines);
  }

  lemma {:induction false} JoinBoth(a: seq<string>, b: seq<string>)
    requires a != [] && b != []
    ensures JoinLines(a + b) == JoinLines(a) + "\n" + JoinLines(b)
  {
    assert (a + b)[1..] == a[1..] + b;
    if |a| > 1 {
      JoinBoth(a[1..], b);
      assert JoinLines(a + b) == a[0] + "\n" + (JoinLines(a[1..]) + "\n" + JoinLines(b));
    } else {
      assert a[1..] + b == b;
    }
  }

  // --- the fields read back ------------------------------------------------------------------

  /** Each untrusted field is printed on a line of its own in the body, where its code span reads back as
      the field if and only if the field is not blank. */
  lemma FieldReadsBack(f: Finding, word: char -> bool, i: nat) returns (before: string, after: string)
    requires i < |Fields(f)|
    ensures IssueBody(f, word) == before + FieldLine(Fields(f)[i]) + after
    ensures (before == "" || before[|before| - 1] == '\n') && after != "" && after[0] == '\n'
    ensures var raw := Fields(f)[i].1;
            ReadCodeSpan(InlineCode(raw) + after) == Some((Normalised(raw), after)) <==> Normalised(raw) != ""
  {
    var lines := ProseLines(f, word) + [f.Marker()];
    assert lines[i] == FieldLine(Fields(f)[i]);
    before, after := LineStands(lines, i);
    CodeSpanRoundTrip(Fields(f)[i].1, after);
  }

  lemma LineStands(lines: seq<string>, i: nat) returns (before: string, after: string)
    requires i + 1 < |lines|
    ensures JoinLines(lines) == before + lines[i] + after
    ensures (before == "" || before[|before| - 1] == '\n') && after != "" && after[0] == '\n'
  {
    after := "\n" + JoinLines(lines[i + 1..]);
    assert lines[i..] == [lines[i]] + lines[i + 1..];
    JoinBoth([lines[i]], lines[i + 1..]);
    if i == 0 {
      before := "";
      assert lines[0..] == lines;
    } else {
      before := JoinLines(lines[..i]) + "\n";
      assert lines == lines[..i] + lines[i..];
      JoinBoth(lines[..i], lines[i..]);
    }
  }

  function Contents(fields: seq<(string, string)>): seq<string> {
    seq(|fields|, i requires 0 <= i < |fields| => Normalised(fields[i].1))
  }

  predicate PlainCaptions(fields: seq<(string, string)>) {
    forall i :: 0 <= i < |fields| ==> TICK !in fields[i].0
  }

  lemma ContentsSplit(fields: seq<(string, string)>)
    requires fields != []
    ensures Contents(fields) == [Normalised(fields[0].1)] + Contents(fields[1..])
  {
  }

  lemma FirstField(fields: seq<(string, string)>)
    requires fields != [] && TICK !in fields[0].0 && Normalised(fields[0].1) != ""
    ensures CodeSpans(JoinLines(FieldLines(fields)))
            == [Normalised(fields[0].1)] + CodeSpans(JoinLines(FieldLines(fields[1..])))
  {
    FirstLine(fields);
    FieldThenRest(fields[0].0, fields[0].1, Below(fields));
    if |fields| > 1 {
      SpansPastPlain("\n", JoinLines(FieldLines(fields[1..])));
    }
  }

  function Below(fields: seq<(string, string)>): string
    requires fields != []
  {
    if |fields| == 1 then "" else "\n" + JoinLines(FieldLines(fields[1..]))
  }

  lemma FirstLine(fields: seq<(string, string)>)
    requires fields != []
    ensures JoinLines(FieldLines(fields)) == fields[0].0 + (InlineCode(fields[0].1) + Below(fields))
  {
    JoinFirst(FieldLines(fields), FieldLines(fields[1..]));
    Associates(fields[0].0, InlineCode(fields[0].1), Below(fields));
  }

  lemma JoinFirst(lines: seq<string>, rest: seq<string>)
    requires lines != [] && lines[1..] == rest
    ensures JoinLines(lines) == lines[0] + (if |lines| == 1 then "" else "\n" + JoinLines(rest))
  {
    if |lines| > 1 {
      Associates(lines[0], "\n", JoinLines(rest));
    }
  }

  lemma FieldThenRest(caption: string, raw: string, below: string)
    requires TICK !in caption && Normalised(raw) != "" && (below != "" ==> below[0] != TICK)
    ensures CodeSpans(caption + (InlineCode(raw) + below)) == [Normalised(raw)] + CodeSpans(below)
  {
    SpansPastPlain(caption, InlineCode(raw) + below);
    PrintedSpanFirst(raw, below);
  }

  lemma {:induction false} FieldsInOrder(fields: seq<(string, string)>)
    requires PlainCaptions(fields) && "" !in Contents(fields)
    ensures CodeSpans(JoinLines(FieldLines(fields))) == Contents(fields)
  {
    if fields != [] {
      ContentsSplit(fields);
      FieldsInOrder(fields[1..]);
      FirstField(fields);
    }
  }

  /** The spans of the lines are their fields if and only if no field is blank. */
  lemma FieldsExact(fields: seq<(string, string)>)
    requires PlainCaptions(fields)
    ensures CodeSpans(JoinLines(FieldLines(fields))) == Contents(fields) <==> "" !in Contents(fields)
  {
    SpansNonEmpty(JoinLines(FieldLines(fields)));
    if "" !in Contents(fields) {
      FieldsInOrder(fields);
    }
  }

  lemma CaptionPlain(f: Finding, i: nat)
    requires i < |Fields(f)|
    ensures var caption := Fields(f)[i].0; OneLine(caption) && TICK !in caption && caption != "" && caption[0] == '*'
  {
    var caption := Fields(f)[i].0;
    assert caption in ["**Rule:** ", "**Severity:** ", "**Location:** ", "**Reference:** "];
  }

  lemma FieldPlace(fields: seq<string>, message: string, code: seq<string>, foot: seq<string>, marker: string)
    ensures fields + ["", "### Message", ""] + [message] + code + foot + [marker]
            == fields + ([""] + (["### Message", ""] + [message] + code + foot + [marker]))
  {
  }

  /** The fields stand together in the first paragraph of the body, and a reader of that paragraph gets
      exactly them, in order, if and only if none of them is blank: the two backticks of a blank one open
      a span of their own. */
  lemma FieldsReadBack(f: Finding, word: char -> bool) returns (paragraph: string, rest: string)
    ensures IssueBody(f, word) == paragraph + "\n" + ("" + "\n" + rest)
    ensures paragraph == JoinLines(FieldLines(Fields(f)))
    ensures forall i :: 0 <= i < |Fields(f)| ==> FieldLine(Fields(f)[i]) != "" && OneLine(FieldLine(Fields(f)[i]))
    ensures CodeSpans(paragraph) == Contents(Fields(f)) <==> "" !in Contents(Fields(f))
  {
    var fields, message := FieldLines(Fields(f)), PlainText(f.message, MAX_MESSAGE_CHARS, word);
    var lower := ["### Message", ""] + [message] + SnippetLines(f) + FootLines(f) + [f.Marker()];
    paragraph, rest := JoinLines(fields), JoinLines(lower);
    FieldPlace(fields, message, SnippetLines(f), FootLines(f), f.Marker());
    JoinBoth(fields, [""] + lower);
    JoinBoth([""], lower);
    forall i | 0 <= i < |Fields(f)|
      ensures TICK !in Fields(f)[i].0 && FieldLine(Fields(f)[i]) != "" && OneLine(FieldLine(Fields(f)[i]))
    {
      CaptionPlain(f, i);
      FieldLineInert(Fields(f)[i]);
    }
    FieldsExact(Fields(f));
  }

  /** The lines above the message, in full, and what a reader gets from them. */
  lemma FieldsSpelled(f: Finding)
    ensures FieldLines(Fields(f)) ==
            [ "**Rule:** " + InlineCode(f.ruleId),
              "**Severity:** " + InlineCode(f.severity),
              "**Location:** " + InlineCode(f.filePath + ":" + Numbers.Print(f.startLine)) ]
            + (if "http://" <= f.helpUri || "https://" <= f.helpUri
               then ["**Reference:** " + InlineCode(f.helpUri)] else [])
    ensures Contents(Fields(f)) ==
            [Normalised(f.ruleId), Normalised(f.severity), Normalised(f.filePath + ":" + Numbers.Print(f.startLine))]
            + (if "http://" <= f.helpUri || "https://" <= f.helpUri then [Normalised(f.helpUri)] else [])
  {
  }

  lemma FieldLineInert(field: (string, string))
    requires OneLine(field.0) && field.0 != "" && field.0[0] == '*'
    ensures Inert(FieldLine(field)) && FieldLine(field) != ""
  {
    NormalisedTrim(field.1);
    assert OneLine(InlineCode(field.1));
  }

  // --- the whole text ------------------------------------------------------------------------

  /** The title is the first 200 characters of source, rule and place, with white space normalised. */
  lemma TitleExactly(f: Finding)
    ensures var full := Normalised("[" + f.source + "] " + f.ruleId + ": " + f.filePath + ":"
                                   + Numbers.Print(f.startLine));
            f.Title() <= full && |f.Title()| == if |full| <= 200 then |full| else 200
  {
  }

  /** The body, line by line: the fields, the message under its heading, the snippet under its own if there is
      one, and the foot with the marker. */
  lemma BodyExactly(f: Finding, word: char -> bool)
    ensures IssueBody(f, word) ==
            JoinLines(FieldLines(Fields(f)) + ["", "### Message", "", PlainText(f.message, 4000, word)]
                      + (if f.snippet == "" then [] else ["", "### Code", ""] + CodeBlock(f.snippet, 4000))
                      + FootLines(f) + [f.Marker()])
  {
    assert FieldLines(Fields(f)) + ["", "### Message", ""] + [PlainText(f.message, 4000, word)]
        == FieldLines(Fields(f)) + ["", "### Message", "", PlainText(f.message, 4000, word)];
  }

  /** The foot is a rule, the note on the source, and as its last line the marker. */
  lemma FootExactly(f: Finding)
    ensures JoinLines(FootLines(f) + [f.Marker()]) ==
            "" + "\n" + "---" + "\n"
            + ("_Discovered automatically by the " + f.source + " discovery source. "
               + "Fix the underlying issue and open a PR referencing this issue._")
            + "\n" + "" + "\n" + ("<!-- semgrep-fingerprint: " + f.fingerprint + " -->")
  {
    var foot := FootLines(f);
    assert foot + [f.Marker()] == [foot[0], foot[1], foot[2]] + [foot[3], f.Marker()];
    JoinThree(foot[0], foot[1], foot[2]);
    JoinBoth([foot[0], foot[1], foot[2]], [foot[3], f.Marker()]);
    JoinBoth([foot[3]], [f.Marker()]);
    assert [foot[3]] + [f.Marker()] == [foot[3], f.Marker()];
    assert f.Marker() == "<!-- semgrep-fingerprint: " + f.fingerprint + " -->";
  }

  // --- the snippet reads back ----------------------------------------------------------------

  lemma {:induction false} InertLines(lines: seq<string>, st: Fence)
    requires Proper(st) && lines != [] && forall line :: line in lines ==> Inert(line)
    ensures Behind(JoinLines(lines), st) == st
  {
    InertLine(lines[0], st);
    if |lines| > 1 {
      InertLines(lines[1..], st);
      BehindBoth(lines[0], JoinLines(lines[1..]), st);
    }
  }

  lemma HeadInert(f: Finding)
    ensures forall line :: line in HeadLines(f) ==> Inert(line)
  {
    forall i | 0 <= i < |Fields(f)|
      ensures Inert(FieldLines(Fields(f))[i])
    {
      CaptionPlain(f, i);
      FieldLineInert(Fields(f)[i]);
    }
    FixedInert();
  }

  lemma FixedInert()
    ensures Inert("") && Inert("### Message") && Inert("### Code")
  {
  }

  /** What is open behind the lines above the snippet is what the message leaves open. */
  lemma OpenAbove(head: seq<string>, message: string, code: seq<string>)
    requires head != [] && code != [] && forall line :: line in head + code ==> Inert(line)
    ensures Behind(JoinLines(head + [message] + code) + "\n", Outside) == Behind(message, Outside)
  {
    var above := JoinLines(head + [message] + code);
    assert head + [message] + code == head + ([message] + code);
    JoinBoth(head, [message] + code);
    JoinBoth([message], code);
    InertLines(head, Outside);
    BehindBoth(JoinLines(head), message + "\n" + JoinLines(code), Outside);
    BehindBoth(message, JoinLines(code), Outside);
    InertLines(code, Behind(message, Outside));
    assert above + "\n" == above + "\n" + "";
    BehindBoth(above, "", Outside);
    EmptyLine(Behind(message, Outside));
  }

  lemma JoinThree(a: string, b: string, c: string)
    ensures JoinLines([a, b, c]) == a + "\n" + b + "\n" + c
  {
    assert [a, b, c][1..] == [b, c] && [b, c][1..] == [c];
    assert JoinLines([b, c]) == b + "\n" + c;
    assert JoinLines([a, b, c]) == a + "\n" + JoinLines([b, c]);
  }

  lemma SnippetPlace(head: seq<string>, message: string, title: seq<string>, code: seq<string>, foot: seq<string>,
                     marker: string)
    ensures head + [message] + (title + code) + foot + [marker]
            == (head + [message] + title) + (code + (foot + [marker]))
  {
  }

  lemma BlockStands(above: seq<string>, code: seq<string>, below: seq<string>)
    requires above != [] && |code| == 3 && below != []
    ensures JoinLines(above + (code + below))
            == (JoinLines(above) + "\n") + (code[0] + "\n" + code[1] + "\n" + code[2]) + ("\n" + JoinLines(below))
  {
    JoinBoth(above, code + below);
    JoinBoth(code, below);
    assert code == [code[0], code[1], code[2]];
    JoinThree(code[0], code[1], code[2]);
    Regroup(JoinLines(above), JoinLines(code), JoinLines(below));
  }

  lemma Regroup(a: string, b: string, c: string)
    ensures a + "\n" + (b + "\n" + c) == (a + "\n") + b + ("\n" + c)
  {
  }

  function LinesAbove(f: Finding, word: char -> bool): seq<string> {
    HeadLines(f) + [PlainText(f.message, MAX_MESSAGE_CHARS, word)] + ["", "### Code", ""]
  }

  lemma BodyAroundSnippet(f: Finding, word: char -> bool)
    requires f.snippet != ""
    ensures ProseLines(f, word) + [f.Marker()]
            == LinesAbove(f, word) + (CodeBlock(f.snippet, MAX_SNIPPET_CHARS) + (FootLines(f) + [f.Marker()]))
  {
    SnippetPlace(HeadLines(f), PlainText(f.message, MAX_MESSAGE_CHARS, word), ["", "### Code", ""],
                 CodeBlock(f.snippet, MAX_SNIPPET_CHARS), FootLines(f), f.Marker());
  }

  lemma OpenAtSnippet(f: Finding, word: char -> bool)
    ensures Behind(JoinLines(LinesAbove(f, word)) + "\n", Outside)
            == Behind(PlainText(f.message, MAX_MESSAGE_CHARS, word), Outside)
  {
    HeadInert(f);
    FixedInert();
    OpenAbove(HeadLines(f), PlainText(f.message, MAX_MESSAGE_CHARS, word), ["", "### Code", ""]);
  }

  /** The snippet is printed as a block that reads back as the text shown, and a reader who knows fenced
      blocks and no others arrives at its fence outside every other one if and only if the printed message
      leaves none open. (HTML in the message, say a comment, may swallow the fence all the same.) */
  lemma SnippetReadsBack(f: Finding, word: char -> bool) returns (before: string, block: string, after: string)
    requires f.snippet != ""
    ensures IssueBody(f, word) == before + block + after
    ensures before != "" && before[|before| - 1] == '\n'
    ensures ReadBlock(block + after) == Some((Shown(f.snippet, 4000) + "\n", after))
    ensures Behind(before, Outside).Outside? <==>
            Behind(PlainText(f.message, 4000, word), Outside).Outside?
  {
    var code, below := CodeBlock(f.snippet, MAX_SNIPPET_CHARS), FootLines(f) + [f.Marker()];
    BodyAroundSnippet(f, word);
    BlockStands(LinesAbove(f, word), code, below);
    before := JoinLines(LinesAbove(f, word)) + "\n";
    block, after := code[0] + "\n" + code[1] + "\n" + code[2], "\n" + JoinLines(below);
    FencedRoundTrip(f.snippet, MAX_SNIPPET_CHARS, after);
    OpenAtSnippet(f, word);
  }

  /** A message of three tildes leaves one open. */
  lemma TildesStayOpen(word: char -> bool)
    ensures Behind(PlainText("~~~", MAX_MESSAGE_CHARS, word), Outside) == Inside(true, 3)
  {
    var s := "~~~";
    assert LStrip(RStrip(s)) == s;
    assert DefuseFrom(s, 3, word) == "" && DefuseFrom(s, 2, word) == "~" && DefuseFrom(s, 1, word) == "~~";
    LineEndIs(s, 0, 3);
    assert s[..3] == s;
    assert DefuseFrom(s, 0, word) == s;
    assert TildeRun(s, 3) == 0 && TildeRun(s, 2) == 1 && TildeRun(s, 1) == 2;
    assert Indent(s, 0) == 0 && TickRun(s, 0) == 0 && TildeRun(s, 0) == 3;
  }

  // --- the marker ----------------------------------------------------------------------------

  /** Computed fingerprints are hexadecimal and a report may bring its own; all that matters is that they
      cannot look like part of a marker. */
  predicate PlainFingerprint(fp: string) {
    forall i :: 0 <= i < |fp| ==> fp[i] != '<' && fp[i] != ' '
  }

  /** Some text of the finding, as printed above its own marker, contains the marker of `fp`. */
  ghost predicate Quotes(f: Finding, fp: string, word: char -> bool) {
    Contains(JoinLines(ProseLines(f, word)), MarkerOf(fp))
  }

  /** A marker contains no second opening bracket, and ends with a closing one. */
  lemma MarkerBrackets(fp: string)
    requires PlainFingerprint(fp)
    ensures var m := MarkerOf(fp);
            && m[0] == '<' && m[|m| - 1] == '>' && forall j :: 0 < j < |m| ==> m[j] != '<'
  {
    var m := MarkerOf(fp);
    assert OPEN == "<!-- semgrep-fingerprint: ";
    assert m == OPEN + fp + CLOSE;
    forall j | 0 < j < |m|
      ensures m[j] != '<'
    {
      assert j < |OPEN| ==> m[j] == OPEN[j];
    }
  }

  lemma SamePrint(fp: string, other: string)
    requires PlainFingerprint(fp) && PlainFingerprint(other)
    requires |other| <= |fp| && (fp + CLOSE)[..|other| + |CLOSE|] == other + CLOSE
    ensures other == fp
  {
    assert (other + CLOSE)[|other|] == ' ' == (fp + CLOSE)[|other|];
    assert |other| == |fp|;
    assert (fp + CLOSE)[..|fp|] == fp && (other + CLOSE)[..|fp|] == other;
  }

  /** A body contains its own marker, and that of another fingerprint if and only if some text of the
      finding quotes it. */
  lemma MarkerIdentifies(f: Finding, other: string, word: char -> bool)
    requires PlainFingerprint(f.fingerprint) && PlainFingerprint(other)
    ensures Contains(IssueBody(f, word), MarkerOf(other)) <==> other == f.fingerprint || Quotes(f, other, word)
  {
    JoinBoth(ProseLines(f, word), [f.Marker()]);
    MarkerBelow(JoinLines(ProseLines(f, word)), f.fingerprint, other);
  }

  lemma MarkerBelow(prose: string, fp: string, other: string)
    requires PlainFingerprint(fp) && PlainFingerprint(other)
    ensures Contains(prose + "\n" + MarkerOf(fp), MarkerOf(other)) <==> other == fp || Contains(prose, MarkerOf(other))
  {
    var s := prose + "\n" + MarkerOf(fp);
    if other == fp {
      assert s[|prose| + 1..] == MarkerOf(fp);
      assert OccursAt(s, MarkerOf(other), |prose| + 1);
    }
    if k: nat :| k <= |prose| && OccursAt(prose, MarkerOf(other), k) {
      assert s[k..k + |MarkerOf(other)|] == prose[k..k + |MarkerOf(other)|];
      assert OccursAt(s, MarkerOf(other), k);
    }
    if k: nat :| k <= |s| && OccursAt(s, MarkerOf(other), k) {
      MarkerAt(s, prose, fp, other, k);
    }
  }

  /** A marker in the body stands in the text above, or is the last line. */
  lemma MarkerAt(s: string, prose: string, fp: string, other: string, k: nat)
    requires s == prose + "\n" + MarkerOf(fp) && PlainFingerprint(fp) && PlainFingerprint(other)
    requires OccursAt(s, MarkerOf(other), k)
    ensures other == fp || OccursAt(prose, MarkerOf(other), k)
  {
    var m, at := |MarkerOf(other)|, |prose| + 1;
    MarkerBrackets(other);
    MarkerBrackets(fp);
    forall j | 0 <= j < m
      ensures s[k + j] == MarkerOf(other)[j]
    {
      assert s[k..k + m][j] == s[k + j];
    }
    assert s[at - 1] == '\n' && s[at..] == MarkerOf(fp);
    if k + m <= |prose| {
      assert prose[k..k + m] == s[k..k + m];
    } else {
      MarkerLast(s, at, fp, other, k, m);
    }
  }

  lemma MarkerLast(s: string, at: nat, fp: string, other: string, k: nat, m: nat)
    requires 0 < at <= |s| && s[at - 1] == '\n' && s[at..] == MarkerOf(fp) && m == |MarkerOf(other)| && k + m <= |s|
    requires PlainFingerprint(fp) && PlainFingerprint(other) && at <= k + m
    requires forall j :: 0 <= j < m ==> s[k + j] == MarkerOf(other)[j]
    ensures other == fp
  {
    MarkerBrackets(other);
    MarkerBrackets(fp);
    assert s[k + (m - 1)] == '>' && s[k + 0] == '<';
    assert forall j :: at <= j < |s| ==> s[j] == s[at..][j - at];
    assert forall j :: k <= j < k + m ==> s[j] == MarkerOf(other)[j - k] by {
      assert forall j :: k <= j < k + m ==> s[k + (j - k)] == s[j];
    }
    assert k == at;
    assert s[at..at + m] == MarkerOf(fp)[..m] == MarkerOf(other);
    MarkerTail(fp, other);
    SamePrint(fp, other);
  }

  lemma MarkerTail(fp: string, other: string)
    requires |MarkerOf(other)| <= |MarkerOf(fp)| && MarkerOf(fp)[..|MarkerOf(other)|] == MarkerOf(other)
    ensures |other| <= |fp| && (fp + CLOSE)[..|other| + |CLOSE|] == other + CLOSE
  {
    assert MarkerOf(fp) == OPEN + (fp + CLOSE) && MarkerOf(other) == OPEN + (other + CLOSE);
    assert MarkerOf(fp)[..|MarkerOf(other)|][|OPEN|..] == (fp + CLOSE)[..|other| + |CLOSE|];
    assert MarkerOf(other)[|OPEN|..] == other + CLOSE;
  }

  lemma MarkerPrinted(fp: string, word: char -> bool)
    requires '@' !in fp && |MarkerOf(fp)| <= 4000
    ensures PlainText(MarkerOf(fp), MAX_MESSAGE_CHARS, word) == MarkerOf(fp)
  {
    var m := MarkerOf(fp);
    assert m[0] == '<' && m[|m| - 1] == '>';
    assert LStrip(RStrip(m)) == m;
    assert '@' !in m;
    NoAtKept(m, 0, word);
    assert m[0..] == m;
  }

  /** A message can quote any marker that the mention filter and the limit leave whole. */
  lemma MessageQuotes(f: Finding, fp: string, word: char -> bool)
    requires f.message == MarkerOf(fp) && '@' !in fp && |MarkerOf(fp)| <= 4000
    ensures Quotes(f, fp, word)
  {
    var m := MarkerOf(fp);
    MarkerPrinted(fp, word);
    var lines, i := ProseLines(f, word), |HeadLines(f)|;
    assert lines[i] == m;
    var before, after := LineStands(lines, i);
    assert (before + m + after)[|before|..|before| + |m|] == m;
    assert OccursAt(JoinLines(lines), m, |before|);
  }
}
