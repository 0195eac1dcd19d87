/** Untrusted prose: mentions are defused, and nothing else changes. */
module Prose {
  import opened Options
  import opened Markdown
  import opened FencedBlock

  const MAX_MESSAGE_CHARS: nat := 4000
  const ZWSP: char := '\U{200B}'

  /** The regular expression engine's `\w`; all that matters is which side five characters are on. */
  ghost predicate WordClass(word: char -> bool) {
    !word(ZWSP) && !word('@') && !word(TICK) && !word('\n') && !word('\r')
  }

  // --- prose ---------------------------------------------------------------------------------

  function LStrip(s: string): string {
    if s != "" && IsSpace(s[0]) then LStrip(s[1..]) else s
  }

  /** What the printer defuses: an at sign with no word character or backtick before it and a word character
      after it. */
  predicate MentionAt(s: string, i: nat, word: char -> bool) {
    && i + 1 < |s| && s[i] == '@' && word(s[i + 1])
    && (i > 0 ==> !word(s[i - 1]) && s[i - 1] != TICK)
  }

  /** Substitutes from position `i` on, looking behind in the original text. */
  function DefuseFrom(s: string, i: nat, word: char -> bool): string
    requires i <= |s|
    decreases |s| - i
  {
    if i == |s| then ""
    else if MentionAt(s, i, word) then ['@', ZWSP] + DefuseFrom(s, i + 1, word)
    else [s[i]] + DefuseFrom(s, i + 1, word)
  }

  function PlainText(raw: string, limit: nat, word: char -> bool): string {
    DefuseFrom(Cut(LStrip(RStrip(raw)), limit), 0, word)
  }

  ghost predicate NoMentions(s: string, from: nat, word: char -> bool) {
    forall i: nat :: from <= i < |s| ==> !MentionAt(s, i, word)
  }

  lemma DefusedHead(s: string, i: nat, word: char -> bool)
    requires i <= |s|
    ensures |DefuseFrom(s, i, word)| >= |s| - i
    ensures i < |s| ==> DefuseFrom(s, i, word) != "" && DefuseFrom(s, i, word)[0] == s[i]
    decreases |s| - i
  {
    if i < |s| {
      DefusedHead(s, i + 1, word);
    }
  }

  lemma ShiftMentions(c: char, rest: string, word: char -> bool, i: nat)
    requires i >= 1
    ensures MentionAt([c] + rest, i + 1, word) <==> MentionAt(rest, i, word)
  {
    var s := [c] + rest;
    assert i < |rest| ==> s[i + 1] == rest[i] && s[i] == rest[i - 1];
    assert i + 1 < |rest| ==> s[i + 2] == rest[i + 1];
  }

  /** `c` is what was printed just before position `i`. */
  lemma {:induction false} DefusedTail(s: string, i: nat, word: char -> bool, c: char)
    requires WordClass(word) && 0 < i <= |s|
    requires c == s[i - 1] || (c == ZWSP && i < |s| && word(s[i]))
    ensures NoMentions([c] + DefuseFrom(s, i, word), 1, word)
    decreases |s| - i
  {
    if i < |s| {
      var rest := DefuseFrom(s, i + 1, word);
      DefusedHead(s, i + 1, word);
      if MentionAt(s, i, word) {
        DefusedTail(s, i + 1, word, ZWSP);
        AddDefused(c, rest, word);
      } else {
        DefusedTail(s, i + 1, word, s[i]);
        AddPlain(c, s[i], rest, word);
      }
    }
  }

  lemma AddDefused(c: char, rest: string, word: char -> bool)
    requires WordClass(word) && NoMentions([ZWSP] + rest, 1, word)
    ensures NoMentions([c] + (['@', ZWSP] + rest), 1, word)
  {
    var inner := [ZWSP] + rest;
    var s := [c] + (['@', ZWSP] + rest);
    assert s == [c] + (['@'] + inner);
    forall i: nat | 1 <= i < |s|
      ensures !MentionAt(s, i, word)
    {
      if i >= 3 {
        ShiftMentions(c, ['@'] + inner, word, i - 1);
        ShiftMentions('@', inner, word, i - 2);
      }
    }
  }

  lemma AddPlain(c: char, d: char, rest: string, word: char -> bool)
    requires NoMentions([d] + rest, 1, word)
    requires !MentionAt([c] + ([d] + rest), 1, word)
    ensures NoMentions([c] + ([d] + rest), 1, word)
  {
    forall i: nat | 2 <= i < |[c] + ([d] + rest)|
      ensures !MentionAt([c] + ([d] + rest), i, word)
    {
      ShiftMentions(c, [d] + rest, word, i - 1);
    }
  }

  /** The prose without the white space at its ends, up to the limit, and then defused. */
  lemma {:induction false} PlainExactly(raw: string, limit: nat, word: char -> bool)
    returns (head: string, core: string, tail: string)
    ensures raw == head + core + tail
    ensures forall i :: 0 <= i < |head| ==> IsSpace(head[i])
    ensures forall i :: 0 <= i < |tail| ==> IsSpace(tail[i])
    ensures core != "" ==> !IsSpace(core[0]) && !IsSpace(core[|core| - 1])
    ensures PlainText(raw, limit, word) == DefuseFrom(if |core| <= limit then core else core[..limit], 0, word)
  {
    var body;
    body, tail := ShownExactly(raw, limit);
    head, core := LStripExactly(body);
  }

  lemma {:induction false} LStripExactly(s: string) returns (head: string, core: string)
    ensures s == head + core && core == LStrip(s)
    ensures forall i :: 0 <= i < |head| ==> IsSpace(head[i])
    ensures core != "" ==> !IsSpace(core[0]) && core[|core| - 1] == s[|s| - 1]
  {
    if s != "" && IsSpace(s[0]) {
      var rest := s[1..];
      head, core := LStripExactly(rest);
      assert s == [s[0]] + rest == [s[0]] + head + core;
      head := [s[0]] + head;
    } else {
      head, core := "", s;
    }
  }

  lemma PatternGone(raw: string, limit: nat, word: char -> bool)
    requires WordClass(word)
    ensures NoMentions(PlainText(raw, limit, word), 0, word)
  {
    var s := Cut(LStrip(RStrip(raw)), limit);
    if s != "" {
      DefusedHead(s, 1, word);
      if MentionAt(s, 0, word) {
        DefusedTail(s, 1, word, ZWSP);
        var inner := [ZWSP] + DefuseFrom(s, 1, word);
        assert PlainText(raw, limit, word) == ['@'] + inner;
        forall i: nat | 2 <= i < |['@'] + inner|
          ensures !MentionAt(['@'] + inner, i, word)
        {
          ShiftMentions('@', inner, word, i - 1);
        }
      } else {
        DefusedTail(s, 1, word, s[0]);
      }
    }
  }

  /** The printed prose holds nothing that the printer's own pattern matches: every at sign before a word
      character has a word character or a backtick before it. */
  lemma MentionsDefused(raw: string, limit: nat, word: char -> bool)
    requires WordClass(word)
    ensures NoMentions(PlainText(raw, limit, word), 0, word)
    ensures var t := PlainText(raw, limit, word);
            forall i :: 0 <= i < |t| - 1 && t[i] == '@' && word(t[i + 1]) ==>
                          i > 0 && (word(t[i - 1]) || t[i - 1] == '`')
  {
    PatternGone(raw, limit, word);
    var t := PlainText(raw, limit, word);
    forall i | 0 <= i < |t| - 1 && t[i] == '@' && word(t[i + 1])
      ensures i > 0 && (word(t[i - 1]) || t[i - 1] == '`')
    {
      assert !MentionAt(t, i, word);
    }
  }

  /** Where the character at `i` is printed. */
  function Place(s: string, i: nat, word: char -> bool): nat
    requires i <= |s|
  {
    if i == 0 then 0 else Place(s, i - 1, word) + (if MentionAt(s, i - 1, word) then 2 else 1)
  }

  lemma {:induction false} PrintedFrom(s: string, i: nat, word: char -> bool)
    requires i <= |s|
    ensures Place(s, i, word) <= |DefuseFrom(s, 0, word)|
    ensures DefuseFrom(s, 0, word)[Place(s, i, word)..] == DefuseFrom(s, i, word)
  {
    if i > 0 {
      PrintedFrom(s, i - 1, word);
      var t, p := DefuseFrom(s, 0, word), Place(s, i - 1, word);
      var step := if MentionAt(s, i - 1, word) then 2 else 1;
      assert t[p..][step..] == t[p + step..];
    }
  }

  /** Nothing else changes: every character is printed in its place, an at sign that is defused is
      followed by the one character inserted for it, and that is all there is. */
  lemma DefuseOnlyInserts(s: string, i: nat, word: char -> bool)
    requires i < |s|
    ensures var t, p := DefuseFrom(s, 0, word), Place(s, i, word);
            && p < |t| && t[p] == s[i]
            && (if s[i] == '@' && i + 1 < |s| && word(s[i + 1]) && (i == 0 || (s[i - 1] != '`' && !word(s[i - 1])))
                then p + 1 < |t| && t[p + 1] == '\U{200B}' && Place(s, i + 1, word) == p + 2
                else Place(s, i + 1, word) == p + 1)
            && Place(s, 0, word) == 0 && Place(s, |s|, word) == |t|
  {
    var t, p := DefuseFrom(s, 0, word), Place(s, i, word);
    PrintedFrom(s, i, word);
    PrintedFrom(s, |s|, word);
    assert t[p..][0] == t[p];
    if MentionAt(s, i, word) {
      assert t[p..][1] == t[p + 1];
    }
  }

  /** Text without at signs is printed as it is. */
  lemma {:induction false} NoAtKept(s: string, i: nat, word: char -> bool)
    requires i <= |s| && forall j :: i <= j < |s| ==> s[j] != '@'
    ensures DefuseFrom(s, i, word) == s[i..]
    decreases |s| - i
  {
    if i < |s| {
      NoAtKept(s, i + 1, word);
    }
  }
}
