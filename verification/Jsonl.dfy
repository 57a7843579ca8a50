/** The two readers of a turn's JSONL output and the rule they share.  The live narration splits the
    text at "\n" as it arrives; the batch parsers run over `stdout.splitlines()` afterwards.
    `streamed_line_count` is only meaningful if both see the same accepted lines. */
module Jsonl {
  import opened Text

  /** `json.loads` restricted to objects: `None` for malformed text and for anything but an object. */
  type Loads<E> = string -> Option<E>

  /** `parse_jsonl_line`. */
  function ParseLine<E>(loads: Loads<E>, line: string): Option<E> {
    var stripped := Strip(line);
    if stripped == "" then None else loads(stripped)
  }

  /** The events of the lines that `parse_jsonl_line` accepts, in order. */
  function Accepted<E>(loads: Loads<E>, lines: seq<string>): seq<E> {
    if lines == [] then []
    else
      var rest := Accepted(loads, lines[1..]);
      match ParseLine(loads, lines[0])
      case None => rest
      case Some(e) => [e] + rest
  }

  /** What a list of lines offers to `json.loads`: the stripped, non-blank ones. */
  function Kept(lines: seq<string>): seq<string> {
    if lines == [] then []
    else (if Strip(lines[0]) == "" then [] else [Strip(lines[0])]) + Kept(lines[1..])
  }

  /** `_parse_claude_jsonl`, and the event half of `_parse_copilot_jsonl`. */
  method ParseOutput<E>(loads: Loads<E>, stdout: string) returns (events: seq<E>)
    ensures events == BatchEvents(loads, stdout)
  {
    var lines := SplitLines(stdout);
    events := [];
    for i := 0 to |lines|
      invariant events == Accepted(loads, lines[..i])
    {
      var parsed := ParseLine(loads, lines[i]);
      AcceptedNext(loads, lines, i);
      if parsed.Some? {
        events := events + [parsed.value];
      }
    }
    assert lines[..|lines|] == lines;
  }

  function BatchEvents<E>(loads: Loads<E>, stdout: string): seq<E> {
    Accepted(loads, SplitLines(stdout))
  }

  /** The lines of `text` that end in "\n", and what follows the last "\n". */
  function CompleteLines(text: string): seq<string> {
    Init(Split(text, '\n'))
  }

  function OpenLine(text: string): string {
    Last(Split(text, '\n'))
  }

  /** What the live reader has accepted once it has consumed `text`. */
  function StreamEvents<E>(loads: Loads<E>, text: string): seq<E> {
    Accepted(loads, CompleteLines(text))
  }

  /** No "\n"-line has text on both sides of another line break, e.g. a raw U+2028 inside a JSON
      string.  A "\r" before the "\n" is harmless: stripping removes it. */
  predicate OnlyNewlines(text: string) {
    forall line | line in Split(text, '\n') :: NoBreak(Strip(line))
  }

  // ---- the shared acceptance rule ----

  lemma {:induction false} AcceptedConcat<E>(loads: Loads<E>, a: seq<string>, b: seq<string>)
    ensures Accepted(loads, a + b) == Accepted(loads, a) + Accepted(loads, b)
  {
    if a == [] {
      assert a + b == b;
    } else {
      assert (a + b)[1..] == a[1..] + b;
      AcceptedConcat(loads, a[1..], b);
    }
  }

  lemma {:induction false} KeptConcat(a: seq<string>, b: seq<string>)
    ensures Kept(a + b) == Kept(a) + Kept(b)
  {
    if a == [] {
      assert a + b == b;
    } else {
      assert (a + b)[1..] == a[1..] + b;
      KeptConcat(a[1..], b);
    }
  }

  /** Acceptance depends on the kept lines only. */
  lemma {:induction false} AcceptedFromKept<E>(loads: Loads<E>, a: seq<string>, b: seq<string>)
    requires Kept(a) == Kept(b)
    ensures Accepted(loads, a) == Accepted(loads, b)
    decreases |a| + |b|
  {
    if a != [] && Strip(a[0]) == "" {
      AcceptedFromKept(loads, a[1..], b);
    } else if b != [] && Strip(b[0]) == "" {
      AcceptedFromKept(loads, a, b[1..]);
    } else if a != [] && b != [] {
      assert Kept(a)[1..] == Kept(a[1..]) && Kept(b)[1..] == Kept(b[1..]);
      AcceptedFromKept(loads, a[1..], b[1..]);
    }
  }

  lemma AcceptedNext<E>(loads: Loads<E>, lines: seq<string>, i: nat)
    requires i < |lines|
    ensures Accepted(loads, lines[..i + 1]) == Accepted(loads, lines[..i]) +
              match ParseLine(loads, lines[i]) { case None => [] case Some(e) => [e] }
  {
    assert lines[..i + 1] == lines[..i] + [lines[i]];
    AcceptedConcat(loads, lines[..i], [lines[i]]);
    assert Accepted(loads, []) == [];
  }

  // ---- white space around a text does not change its kept lines ----

  lemma {:induction false} KeptBlankStart(p: string, line: string, s: string)
    requires Blank(p)
    ensures Kept(LinesFrom(p + line, s)) == Kept(LinesFrom(line, s))
    decreases |s|
  {
    StripIgnoresBlank(p, line, "");
    assert p + line + "" == p + line;
    if s == "" {
      StripEmpty(p + line);
    } else if !IsLineBreak(s[0]) {
      KeptBlankStart(p, line + [s[0]], s[1..]);
      assert p + (line + [s[0]]) == p + line + [s[0]];
    }
  }

  lemma {:induction false} KeptBlankEnd(line: string, b: string)
    requires Blank(b)
    ensures Kept(LinesFrom(line, b)) == Kept([line])
    decreases |b|
  {
    StripEmpty("");
    if b != "" && IsLineBreak(b[0]) {
      KeptBlankEnd("", b[BreakLength(b)..]);
    } else if b != "" {
      KeptBlankEnd(line + [b[0]], b[1..]);
      StripIgnoresBlank("", line, [b[0]]);
      assert "" + line + [b[0]] == line + [b[0]];
    }
  }

  lemma {:induction false} KeptLeading(line: string, a: string, t: string)
    requires Blank(line) && Blank(a) && (t != "" ==> !IsSpace(t[0]))
    ensures Kept(LinesFrom(line, a + t)) == Kept(LinesFrom("", t))
    decreases |a|
  {
    if a == "" {
      assert a + t == t && line + "" == line;
      KeptBlankStart(line, "", t);
    } else if IsLineBreak(a[0]) {
      var n := BreakLength(a + t);
      assert n <= |a| by { if |a| == 1 && t != "" { assert (a + t)[1] == t[0]; } }
      assert (a + t)[n..] == a[n..] + t;
      KeptLeading("", a[n..], t);
      StripEmpty(line);
    } else {
      assert (a + t)[1..] == a[1..] + t;
      KeptLeading(line + [a[0]], a[1..], t);
    }
  }

  lemma {:induction false} KeptTrailing(line: string, x: string, b: string)
    requires Blank(b)
    ensures Kept(LinesFrom(line, x + b)) == Kept(LinesFrom(line, x))
    decreases |x|
  {
    if x == "" {
      assert x + b == b;
      KeptBlankEnd(line, b);
      StripEmpty(line);
    } else if IsLineBreak(x[0]) {
      var n, n' := BreakLength(x + b), BreakLength(x);
      if n == n' {
        assert (x + b)[n..] == x[n..] + b;
        KeptTrailing("", x[n..], b);
      } else {
        assert x == ['\r'] && (x + b)[n..] == b[1..];
        KeptBlankEnd("", b[1..]);
        assert x[n'..] == "";
        StripEmpty("");
      }
    } else {
      assert (x + b)[1..] == x[1..] + b;
      KeptTrailing(line + [x[0]], x[1..], b);
    }
  }

  lemma KeptOfStrip(s: string)
    ensures Kept(SplitLines(Strip(s))) == Kept(SplitLines(s))
  {
    var a, b := StripParts(s);
    var m := Strip(s);
    assert s == a + (m + b);
    if m == "" {
      assert s == a + b;
      KeptBlankEnd("", s);
      StripEmpty("");
    } else {
      assert (m + b)[0] == m[0];
      KeptLeading("", a, m + b);
      KeptTrailing("", m, b);
    }
  }

  /** The sandbox hands back a stripped copy of the output file; the batch parser cannot tell. */
  lemma BatchIgnoresOuterSpace<E>(loads: Loads<E>, out: string)
    ensures BatchEvents(loads, Strip(out)) == BatchEvents(loads, out)
  {
    KeptOfStrip(out);
    AcceptedFromKept(loads, SplitLines(Strip(out)), SplitLines(out));
  }

  // ---- one "\n"-line at a time ----

  function KeptByLine(segments: seq<string>): seq<string> {
    if segments == [] then []
    else Kept(SplitLines(segments[0])) + KeptByLine(segments[1..])
  }

  /** Every "\n" is also a `splitlines` break, so the batch lines refine the "\n"-lines. */
  lemma {:induction false} KeptSegments(line: string, s: string)
    ensures Kept(LinesFrom(line, s))
         == Kept(LinesFrom(line, Split(s, '\n')[0])) + KeptByLine(Split(s, '\n')[1..])
    decreases |s|
  {
    StripEmpty("");
    if s != "" {
      var next := Split(s[1..], '\n');
      if s[0] == '\n' {
        KeptSegments("", s[1..]);
        assert Split(s, '\n') == [""] + next;
        assert KeptByLine(next) == Kept(SplitLines(next[0])) + KeptByLine(next[1..]);
      } else {
        SplitFirstPiece([s[0]], s[1..], '\n');
        assert "" + [s[0]] == [s[0]];
        var first := [s[0]] + next[0];
        assert Split(s, '\n') == [first] + next[1..];
        assert first[1..] == next[0];
        SplitFromPieces("", s[1..], '\n');
        if IsLineBreak(s[0]) {
          KeptBroken(line, s);
        } else {
          KeptSegments(line + [s[0]], s[1..]);
        }
      }
    }
  }

  lemma BreakOff(line: string, s: string)
    requires s != "" && IsLineBreak(s[0])
    ensures Kept(LinesFrom(line, s)) == Kept([line]) + Kept(LinesFrom("", s[BreakLength(s)..]))
  {
    KeptConcat([line], LinesFrom("", s[BreakLength(s)..]));
  }

  lemma {:induction false} KeptBroken(line: string, s: string)
    requires s != "" && IsLineBreak(s[0]) && s[0] != '\n'
    requires Split(s, '\n') == [[s[0]] + Split(s[1..], '\n')[0]] + Split(s[1..], '\n')[1..]
    ensures Kept(LinesFrom(line, s))
         == Kept(LinesFrom(line, Split(s, '\n')[0])) + KeptByLine(Split(s, '\n')[1..])
    decreases |s|, 0
  {
    var next := Split(s[1..], '\n');
    var first := [s[0]] + next[0];
    SplitFromPieces("", s[1..], '\n');
    OwnBreak(first, next[0]);
    BreakOff(line, s);
    BreakOff(line, first);
    AfterBreak(s);
    Associative(Kept([line]), Kept(LinesFrom("", next[0])), KeptByLine(next[1..]));
  }

  lemma OwnBreak(first: string, rest: string)
    requires first != "" && first[1..] == rest && '\n' !in rest
    ensures BreakLength(first) == 1
  {
    assert |first| >= 2 ==> first[1] == rest[0] && rest[0] in rest;
  }

  lemma {:induction false} AfterBreak(s: string)
    requires s != "" && IsLineBreak(s[0]) && s[0] != '\n'
    ensures var next := Split(s[1..], '\n');
            Kept(LinesFrom("", s[BreakLength(s)..])) == Kept(LinesFrom("", next[0])) + KeptByLine(next[1..])
    decreases |s|, -1
  {
    if BreakLength(s) == 1 {
      KeptSegments("", s[1..]);
    } else {
      KeptSegments("", s[2..]);
      AfterCarriageReturn(s);
    }
  }

  lemma AfterCarriageReturn(s: string)
    requires |s| >= 2 && s[0] == '\r' && s[1] == '\n'
    ensures var next, tail := Split(s[1..], '\n'), Split(s[2..], '\n');
            && Kept(LinesFrom("", next[0])) == [] && next[1..] == tail
            && KeptByLine(tail) == Kept(LinesFrom("", tail[0])) + KeptByLine(tail[1..])
  {
    assert s[1..][0] == '\n' && s[1..][1..] == s[2..];
    assert Split(s[1..], '\n') == [""] + Split(s[2..], '\n');
  }

  lemma {:induction false} KeptSomething(line: string, s: string)
    requires !Blank(line + s)
    ensures Kept(LinesFrom(line, s)) != []
    decreases |s|
  {
    StripEmpty(line);
    if s == "" {
      assert line + s == line;
    } else if IsLineBreak(s[0]) {
      if Blank(line) {
        var n := BreakLength(s);
        assert line + s == line + s[..n] + s[n..];
        assert "" + s[n..] == s[n..];
        assert Blank(s[..n]);
        KeptSomething("", s[n..]);
      }
    } else {
      assert line + [s[0]] + s[1..] == line + s;
      KeptSomething(line + [s[0]], s[1..]);
    }
  }

  lemma FirstBreak(s: string) returns (i: nat)
    requires !NoBreak(s)
    ensures i < |s| && IsLineBreak(s[i]) && NoBreak(s[..i])
  {
    i := 0;
    while !IsLineBreak(s[i])
      invariant i < |s| && NoBreak(s[..i])
      invariant exists j | i <= j < |s| :: IsLineBreak(s[j])
      decreases |s| - i
    {
      i := i + 1;
    }
  }

  lemma KeptCutAt(head: string, tail: string)
    requires NoBreak(head) && !Blank(head) && tail != "" && IsLineBreak(tail[0]) && !IsSpace(Last(tail))
    ensures |Kept(SplitLines(head + tail))| >= 2
  {
    var rest := tail[BreakLength(tail)..];
    assert rest != "" && Last(rest) == Last(tail);
    LinesFromPlain("", head, tail);
    assert "" + head == head && "" + rest == rest;
    BreakOff(head, tail);
    StripEmpty(head);
    KeptSomething("", rest);
  }

  /** A trimmed text with a line break in it has text on both sides of that break. */
  lemma KeptCut(m: string)
    requires Trimmed(m) && !NoBreak(m)
    ensures |Kept(SplitLines(m))| >= 2
  {
    var i := FirstBreak(m);
    var head, tail := m[..i], m[i..];
    assert m == head + tail && head != "" && head[0] == m[0];
    assert Last(tail) == Last(m);
    KeptCutAt(head, tail);
  }

  /** A clean "\n"-line is one line to both readers; an unclean one is at least two to the batch. */
  lemma KeptOneLine(segment: string)
    ensures NoBreak(Strip(segment)) ==> Kept(SplitLines(segment)) == Kept([segment])
    ensures !NoBreak(Strip(segment)) ==> |Kept(SplitLines(segment))| >= 2 && |Kept([segment])| == 1
  {
    var m := Strip(segment);
    KeptOfStrip(segment);
    var _, _ := StripParts(segment);
    StripTrimmed(m);
    if NoBreak(m) {
      LinesFromPlain("", m, "");
      assert m + "" == m && "" + m == m;
    } else {
      KeptCut(m);
    }
  }

  lemma {:induction false} KeptByLineClean(segments: seq<string>)
    ensures |KeptByLine(segments)| >= |Kept(segments)|
    ensures (forall s | s in segments :: NoBreak(Strip(s))) ==> KeptByLine(segments) == Kept(segments)
    ensures (exists s | s in segments :: !NoBreak(Strip(s))) ==> |KeptByLine(segments)| > |Kept(segments)|
  {
    if segments != [] {
      KeptOneLine(segments[0]);
      KeptByLineClean(segments[1..]);
      assert segments == [segments[0]] + segments[1..];
      KeptConcat([segments[0]], segments[1..]);
    }
  }

  /** The batch lines of some "\n"-lines. */
  function LinesOf(segments: seq<string>): seq<string> {
    if segments == [] then [] else SplitLines(segments[0]) + LinesOf(segments[1..])
  }

  lemma {:induction false} KeptOfLines(segments: seq<string>)
    ensures Kept(LinesOf(segments)) == KeptByLine(segments)
  {
    if segments != [] {
      KeptOfLines(segments[1..]);
      KeptConcat(SplitLines(segments[0]), LinesOf(segments[1..]));
    }
  }

  lemma {:induction false} KeptByLineConcat(a: seq<string>, b: seq<string>)
    ensures KeptByLine(a + b) == KeptByLine(a) + KeptByLine(b)
  {
    if a == [] {
      assert a + b == b;
    } else {
      assert (a + b)[1..] == a[1..] + b;
      KeptByLineConcat(a[1..], b);
    }
  }

  lemma KeptOfText(text: string)
    ensures Kept(SplitLines(text)) == KeptByLine(Split(text, '\n'))
  {
    KeptSegments("", text);
  }

  /** Without any condition: the batch finds the lines of each complete "\n"-line, and then those of the rest. */
  lemma BatchByLine<E>(loads: Loads<E>, consumed: string, unread: string)
    ensures BatchEvents(loads, consumed + unread)
         == Accepted(loads, LinesOf(CompleteLines(consumed))) + BatchEvents(loads, OpenLine(consumed) + unread)
  {
    var out, complete, rest := consumed + unread, CompleteLines(consumed), OpenLine(consumed) + unread;
    SplitConcat(consumed, unread, '\n');
    KeptOfText(out);
    KeptOfText(rest);
    KeptByLineConcat(complete, Split(rest, '\n'));
    KeptOfLines(complete);
    KeptConcat(LinesOf(complete), SplitLines(rest));
    AcceptedFromKept(loads, SplitLines(out), LinesOf(complete) + SplitLines(rest));
    AcceptedConcat(loads, LinesOf(complete), SplitLines(rest));
  }

  /** Exactly when the two readers agree on what to offer the JSON parser. */
  lemma ReadersAgree(text: string)
    ensures Kept(SplitLines(text)) == Kept(Split(text, '\n')) <==> OnlyNewlines(text)
  {
    KeptSegments("", text);
    var segments := Split(text, '\n');
    assert KeptByLine(segments) == Kept(SplitLines(text));
    KeptByLineClean(segments);
  }

  /** Streaming refines batch: whatever part of the output has been consumed, the accepted lines are a
      prefix of the batch parser's list, and the rest of that list is what the batch parser finds in
      the unterminated line and the unread text. */
  lemma StreamIsPrefixOfBatch<E>(loads: Loads<E>, consumed: string, unread: string)
    requires OnlyNewlines(consumed + unread)
    ensures BatchEvents(loads, consumed + unread)
         == StreamEvents(loads, consumed) + BatchEvents(loads, OpenLine(consumed) + unread)
  {
    var out := consumed + unread;
    var rest := OpenLine(consumed) + unread;
    SplitConcat(consumed, unread, '\n');
    assert forall l | l in Split(rest, '\n') :: l in Split(out, '\n');
    ReadersAgree(out);
    ReadersAgree(rest);
    AcceptedFromKept(loads, SplitLines(out), Split(out, '\n'));
    AcceptedFromKept(loads, SplitLines(rest), Split(rest, '\n'));
    AcceptedConcat(loads, CompleteLines(consumed), Split(rest, '\n'));
  }

  /** Where the condition fails, some acceptance rule makes the batch list longer than every line the
      live reader could ever see, so `streamed_line_count` no longer indexes it. */
  lemma ReadersDiffer(text: string)
    requires !OnlyNewlines(text)
    ensures |BatchEvents(l => Some(l), text)| > |Accepted(l => Some(l), Split(text, '\n'))|
  {
    var all := (l: string) => Some(l);
    KeptSegments("", text);
    KeptByLineClean(Split(text, '\n'));
    AcceptedAll(SplitLines(text));
    AcceptedAll(Split(text, '\n'));
  }

  lemma {:induction false} AcceptedAll(lines: seq<string>)
    ensures Accepted(l => Some(l), lines) == Kept(lines)
  {
    if lines != [] {
      AcceptedAll(lines[1..]);
    }
  }

  /** A raw U+2028 inside a JSON string is legal JSON and one line to the live reader; the batch
      parser cuts the object in two. */
  lemma LineSeparatorExample()
    ensures !OnlyNewlines("{\"t\":\"a\U{2028}b\"}\n")
  {
    var line := "{\"t\":\"a\U{2028}b\"}";
    assert line + ['\n'] + "" == "{\"t\":\"a\U{2028}b\"}\n";
    SplitAtSeparator(line, "", '\n');
    StripTrimmed(line);
    assert IsLineBreak(line[7]);
    assert Split("{\"t\":\"a\U{2028}b\"}\n", '\n')[0] == line;
  }
}
