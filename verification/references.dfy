/** Issue numbers mentioned in a pull request: the scanner behind `(?<![A-Za-z0-9/])#(\d+)\b`, over ASCII text. */
module References {
  import opened Options
  import opened Strings

  predicate IsDigit(c: char) { '0' <= c <= '9' }

  predicate IsAlnum(c: char) { IsDigit(c) || 'A' <= c <= 'Z' || 'a' <= c <= 'z' }

  predicate IsWord(c: char) { IsAlnum(c) || c == '_' }

  // --- decimal numbers -----------------------------------------------------------------------

  predicate AllDigits(s: string) {
    forall i :: 0 <= i < |s| ==> IsDigit(s[i])
  }

  function Parse(s: string): nat
    requires AllDigits(s)
  {
    if s == "" then 0 else 10 * Parse(s[..|s| - 1]) + ((s[|s| - 1] as int) - ('0' as int))
  }

  function Digit(d: nat): char
    requires d < 10
  {
    (('0' as int) + d) as char
  }

  function Print(n: nat): (s: string)
    ensures s != "" && AllDigits(s)
    ensures s[0] == '0' ==> n == 0
  {
    if n < 10 then [Digit(n)] else Print(n / 10) + [Digit(n % 10)]
  }

  lemma {:induction false} ParsePrint(n: nat)
    ensures Parse(Print(n)) == n
  {
    if n >= 10 {
      ParsePrint(n / 10);
      assert Print(n)[..|Print(n)| - 1] == Print(n / 10);
    } else {
      assert Print(n)[..0] == "";
    }
  }

  /** Digits without a leading zero, as numbers are written. */
  predicate Canonical(s: string) {
    s != "" && AllDigits(s) && (s[0] == '0' ==> |s| == 1)
  }

  lemma {:induction false} ParsePositive(s: string)
    requires s != "" && AllDigits(s) && s[0] != '0'
    ensures Parse(s) >= 1
  {
    if |s| > 1 {
      ParsePositive(s[..|s| - 1]);
    } else {
      assert s[..0] == "";
    }
  }

  lemma {:induction false} PrintParse(s: string)
    requires Canonical(s)
    ensures Print(Parse(s)) == s
    ensures |s| > 1 ==> Parse(s) >= 10
  {
    var init, last := s[..|s| - 1], s[|s| - 1];
    if |s| > 1 {
      PrintParse(init);
      ParsePositive(init);
      assert Parse(s) / 10 == Parse(init);
      assert s == init + [last];
    } else {
      assert s[..0] == "";
    }
  }

  // --- matches -------------------------------------------------------------------------------

  /** The end of the maximal digit run that starts at `i`. */
  function RunEnd(s: string, i: nat): (j: nat)
    requires i <= |s|
    ensures i <= j <= |s|
    ensures AllDigits(s[i..j])
    ensures j < |s| ==> !IsDigit(s[j])
    decreases |s| - i
  {
    if i < |s| && IsDigit(s[i]) then
      var j := RunEnd(s, i + 1);
      assert s[i..j] == [s[i]] + s[i + 1..j];
      j
    else i
  }

  /** The pattern matches at `i`: no letter, digit or slash before the hash sign, at least one digit
      after it, and a word boundary after the digits. */
  predicate MatchAt(s: string, i: nat) {
    && i < |s| && s[i] == '#'
    && (i > 0 ==> !IsAlnum(s[i - 1]) && s[i - 1] != '/')
    && var j := RunEnd(s, i + 1); j > i + 1 && (j < |s| ==> !IsWord(s[j]))
  }

  function NumberAt(s: string, i: nat): nat
    requires MatchAt(s, i)
  {
    Parse(s[i + 1..RunEnd(s, i + 1)])
  }

  /** `findall` from position `i`: each search resumes where the previous match ended. */
  function FindFrom(s: string, i: nat): set<nat>
    requires i <= |s|
    decreases |s| - i
  {
    if i == |s| then {}
    else if MatchAt(s, i) then {NumberAt(s, i)} + FindFrom(s, RunEnd(s, i + 1))
    else FindFrom(s, i + 1)
  }

  function Text(title: Option<string>, body: Option<string>): string {
    OrElse(title, "") + "\n" + OrElse(body, "")
  }

  function ReferencedIssues(title: Option<string>, body: Option<string>): set<nat> {
    FindFrom(Text(title, body), 0)
  }

  /** A match consumes no hash sign but its own, so resuming after it skips no other match. */
  lemma NoMatchInside(s: string, i: nat, k: nat)
    requires MatchAt(s, i) && i < k < RunEnd(s, i + 1)
    ensures !MatchAt(s, k)
  {
    assert s[i + 1..RunEnd(s, i + 1)][k - (i + 1)] == s[k];
  }

  /** The scanner finds exactly the numbers matched at some position. */
  lemma {:induction false} ScannerExact(s: string, i: nat, n: nat)
    requires i <= |s|
    ensures n in FindFrom(s, i) <==> exists k :: i <= k < |s| && MatchAt(s, k) && NumberAt(s, k) == n
    decreases |s| - i
  {
    if i < |s| {
      if MatchAt(s, i) {
        var j := RunEnd(s, i + 1);
        ScannerExact(s, j, n);
        forall k | i < k < j
          ensures !MatchAt(s, k)
        {
          NoMatchInside(s, i, k);
        }
      } else {
        ScannerExact(s, i + 1, n);
      }
    }
  }

  // --- what is written is found --------------------------------------------------------------

  /** A maximal run is recognised wherever it stands. */
  lemma {:induction false} RunEndIs(s: string, i: nat, j: nat)
    requires i <= j <= |s| && AllDigits(s[i..j]) && (j < |s| ==> !IsDigit(s[j]))
    ensures RunEnd(s, i) == j
    decreases j - i
  {
    if i < j {
      assert s[i..j][0] == s[i];
      assert s[i + 1..j] == s[i..j][1..];
      RunEndIs(s, i + 1, j);
    }
  }

  predicate AllZeros(s: string) {
    forall i :: 0 <= i < |s| ==> s[i] == '0'
  }

  /** More digits make another number, unless they extend a zero by zeros. */
  lemma {:induction false} ParseMore(a: string, b: string)
    requires AllDigits(a) && AllDigits(b)
    ensures AllDigits(a + b) && Parse(a + b) >= Parse(a)
    ensures Parse(a + b) == Parse(a) <==> b == "" || (Parse(a) == 0 && AllZeros(b))
  {
    if b == "" {
      assert a + b == a;
    } else {
      var init, last := b[..|b| - 1], b[|b| - 1];
      ParseMore(a, init);
      assert (a + b)[..|a + b| - 1] == a + init;
      assert AllZeros(b) <==> AllZeros(init) && last == '0';
    }
  }

  /** A reference may stand here: no letter, digit or slash comes before it. */
  predicate OpensReference(before: string) {
    before != "" ==> !IsAlnum(before[|before| - 1]) && before[|before| - 1] != '/'
  }

  /** The number `n` ends here: no word character follows, except that a zero swallows further zeros. */
  predicate EndsNumber(n: nat, after: string) {
    var d := if n == 0 then ZeroEnd(after, 0) else 0;
    d < |after| ==> !IsWord(after[d])
  }

  function ZeroEnd(s: string, i: nat): (j: nat)
    requires i <= |s|
    ensures i <= j <= |s| && AllZeros(s[i..j]) && (j < |s| ==> s[j] != '0')
    decreases |s| - i
  {
    if i < |s| && s[i] == '0' then
      var j := ZeroEnd(s, i + 1);
      assert s[i..j] == [s[i]] + s[i + 1..j];
      j
    else i
  }

  /** In characters: before the hash sign an ASCII letter, digit or slash is not allowed, and behind the number
      no ASCII letter, digit or underscore, except that a zero may be followed by further zeros first. */
  lemma SurroundingsExact(before: string, n: nat, after: string)
    ensures OpensReference(before) <==>
              || before == ""
              || var c := before[|before| - 1];
                 !('0' <= c <= '9') && !('A' <= c <= 'Z') && !('a' <= c <= 'z') && c != '/'
    ensures EndsNumber(n, after) <==>
              exists d: nat ::
                && d <= |after| && (d > 0 ==> n == 0) && (forall i :: 0 <= i < d ==> after[i] == '0')
                && (d < |after| ==>
                      var c := after[d];
                      !('0' <= c <= '9') && !('A' <= c <= 'Z') && !('a' <= c <= 'z') && c != '_')
  {
    var z := if n == 0 then ZeroEnd(after, 0) else 0;
    assert forall i :: 0 <= i < z ==> after[i] == after[0..z][i];
  }

  /** The digits of `#n` and whatever digits follow it make up one run. */
  lemma MentionRun(before: string, n: nat, after: string)
    ensures var s, p, d := before + "#" + Print(n) + after, |before| + 1, RunEnd(after, 0);
            && RunEnd(s, p) == p + |Print(n)| + d
            && s[p..RunEnd(s, p)] == Print(n) + after[..d]
  {
    var s, p, d := before + "#" + Print(n) + after, |before| + 1, RunEnd(after, 0);
    var j := p + |Print(n)| + d;
    assert s[p..] == Print(n) + after;
    assert s[p..j] == (Print(n) + after)[..|Print(n)| + d] == Print(n) + after[..d];
    assert after[..d] == after[0..d];
    assert j < |s| ==> s[j] == after[d];
    RunEndIs(s, p, j);
  }

  /** The zeros that begin a text are its whole first run of digits exactly when no other digit follows them. */
  lemma ZerosInRun(s: string)
    ensures var d, z := RunEnd(s, 0), ZeroEnd(s, 0);
            z <= d && (AllZeros(s[..d]) <==> z == d) && (z < d ==> IsDigit(s[z]))
  {
    var d, z := RunEnd(s, 0), ZeroEnd(s, 0);
    assert s[..d] == s[0..d] && s[..z] == s[0..z];
    assert forall i :: 0 <= i < z ==> s[i] == s[..z][i];
    if z < d {
      assert s[..d][z] == s[z];
    }
  }

  lemma ZerosThenNoWord(n: nat, after: string)
    ensures var d := RunEnd(after, 0);
            (d == 0 || (n == 0 && AllZeros(after[..d]))) && (d < |after| ==> !IsWord(after[d]))
            <==> EndsNumber(n, after)
  {
    ZerosInRun(after);
    var d := RunEnd(after, 0);
    if d > 0 {
      assert after[0..d][0] == after[0];
    }
  }

  /** A mention of `#n` in any surroundings is a reference to issue `n` if and only if no letter, digit or
      slash stands before it and the number ends where it does. */
  lemma MentionExact(before: string, n: nat, after: string)
    ensures var s, k := before + "#" + Print(n) + after, |before|;
            MatchAt(s, k) && NumberAt(s, k) == n <==> OpensReference(before) && EndsNumber(n, after)
  {
    var s, k, d := before + "#" + Print(n) + after, |before|, RunEnd(after, 0);
    MentionRun(before, n, after);
    ParsePrint(n);
    assert after[..d] == after[0..d];
    ParseMore(Print(n), after[..d]);
    ZerosThenNoWord(n, after);
    assert k > 0 ==> s[k - 1] == before[k - 1];
    var j := RunEnd(s, k + 1);
    assert j < |s| ==> s[j] == after[d];
  }

  /** The line `Closes #n` that sessions are told to write is always picked up, whatever surrounds it. */
  lemma ClosingLineFound(title: Option<string>, above: string, n: nat, below: string)
    requires above == "" || above[|above| - 1] == '\n'
    requires below == "" || below[0] == '\n'
    ensures n in ReferencedIssues(title, Some(above + "Closes #" + Print(n) + below))
  {
    var before := OrElse(title, "") + "\n" + above + "Closes ";
    var s := Text(title, Some(above + "Closes #" + Print(n) + below));
    assert s == before + "#" + Print(n) + below;
    MentionExact(before, n, below);
    ScannerExact(s, 0, n);
  }

  // --- the open-PR scan ----------------------------------------------------------------------

  /** The test of the open-PR scan: `#n` occurs in the title or in the body. */
  predicate Mentions(title: string, body: Option<string>, n: nat) {
    Contains(title, "#" + Print(n)) || Contains(OrElse(body, ""), "#" + Print(n))
  }

  lemma MentionsExactly(title: string, body: Option<string>, n: nat, mention: string)
    requires mention == "#" + Print(n)
    ensures Mentions(title, body, n) <==>
              || (exists a, b :: title == a + mention + b)
              || (body.Some? && exists a, b :: body.value == a + mention + b)
  {
    ContainsExactly(title, mention);
    if body.Some? {
      ContainsExactly(body.value, mention);
    }
  }

  /** A match lies on one side of the line break between title and body. */
  lemma MatchSide(title: string, rest: string, k: nat)
    requires var s := title + "\n" + rest; k < |s| && MatchAt(s, k)
    ensures var s := title + "\n" + rest; k < |title| ==> RunEnd(s, k + 1) <= |title|
    ensures k != |title|
  {
    var s := title + "\n" + rest;
    assert s[|title|] == '\n';
    var j := RunEnd(s, k + 1);
    forall p | k < p < j
      ensures IsDigit(s[p])
    {
      assert s[k + 1..j][p - (k + 1)] == s[p];
    }
  }

  lemma OccursInPart(title: string, rest: string, k: nat, j: nat)
    requires var s := title + "\n" + rest; k < j <= |s| && k != |title| && (k < |title| ==> j <= |title|)
    ensures var needle := (title + "\n" + rest)[k..j]; Contains(title, needle) || Contains(rest, needle)
  {
    var s := title + "\n" + rest;
    if k < |title| {
      assert title[k..j] == s[k..j];
      assert OccursAt(title, s[k..j], k);
    } else {
      var at := k - |title| - 1;
      assert rest[at..j - |title| - 1] == s[k..j];
      assert OccursAt(rest, s[k..j], at);
    }
  }

  /** A reference written without leading zeros is also seen by the open-PR scan. */
  lemma ReferenceIsMentioned(title: string, body: Option<string>, k: nat)
    requires MatchAt(Text(Some(title), body), k)
    requires Canonical(Text(Some(title), body)[k + 1..RunEnd(Text(Some(title), body), k + 1)])
    ensures Mentions(title, body, NumberAt(Text(Some(title), body), k))
  {
    var s := Text(Some(title), body);
    var j := RunEnd(s, k + 1);
    MatchSide(title, OrElse(body, ""), k);
    OccursInPart(title, OrElse(body, ""), k, j);
    PrintParse(s[k + 1..j]);
    assert s[k..j] == "#" + Print(NumberAt(s, k));
  }

  /** `#n` occurs at `k` in surroundings that make it a reference. */
  ghost predicate RefersAt(s: string, n: nat, k: nat) {
    OccursAt(s, "#" + Print(n), k) && OpensReference(s[..k]) && EndsNumber(n, s[k + 1 + |Print(n)|..])
  }

  lemma RefersIsMatch(s: string, n: nat, k: nat)
    requires OccursAt(s, "#" + Print(n), k)
    ensures MatchAt(s, k) && NumberAt(s, k) == n <==> RefersAt(s, n, k)
  {
    var m := k + 1 + |Print(n)|;
    assert s == s[..k] + s[k..m] + s[m..];
    assert s == s[..k] + "#" + Print(n) + s[m..];
    MentionExact(s[..k], n, s[m..]);
  }

  lemma CanonicalMatchOccurs(s: string, k: nat)
    requires MatchAt(s, k) && Canonical(s[k + 1..RunEnd(s, k + 1)])
    ensures OccursAt(s, "#" + Print(NumberAt(s, k)), k)
  {
    var j := RunEnd(s, k + 1);
    PrintParse(s[k + 1..j]);
    assert s[k..j] == "#" + s[k + 1..j];
  }

  /** In a pull request that writes its numbers without leading zeros, an issue is referred to if and only
      if one of its mentions stands in surroundings that make it a reference. */
  lemma ReferencesExact(title: Option<string>, body: Option<string>, n: nat)
    requires forall k: nat :: MatchAt(Text(title, body), k) ==>
               Canonical(Text(title, body)[k + 1..RunEnd(Text(title, body), k + 1)])
    ensures n in ReferencedIssues(title, body) <==> exists k: nat :: RefersAt(Text(title, body), n, k)
    ensures Text(title, body) ==
            (if title.Some? then title.value else "") + "\n" + (if body.Some? then body.value else "")
  {
    var s := Text(title, body);
    ScannerExact(s, 0, n);
    if k: nat :| RefersAt(s, n, k) {
      RefersIsMatch(s, n, k);
    }
    if k: nat :| k < |s| && MatchAt(s, k) && NumberAt(s, k) == n {
      CanonicalMatchOccurs(s, k);
      RefersIsMatch(s, n, k);
    }
  }

  /** The open-PR scan sees more: `#120` mentions issue 12 but does not refer to it. */
  lemma MentionIsNotReference()
    ensures Mentions("#120", None, 12) && 12 !in ReferencedIssues(Some("#120"), None)
  {
    assert "#" + Print(12) == "#" + (Print(1) + [Digit(2)]) == "#12";
    assert OccursAt("#120", "#" + Print(12), 0);
    var s := Text(Some("#120"), None);
    assert s == "" + "#" + Print(12) + "0\n";
    MentionExact("", 12, "0\n");
    ScannerExact(s, 0, 12);
  }
}
