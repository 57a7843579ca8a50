/** A turn that exits between the tail read and the status check of its last poll: the run of the poll loop,
    step by step, and the line that is lost. */
module LateExit {
  import opened Text
  import opened Jsonl
  import opened Narration
  import opened SandboxExec
  import opened WaitLoop
  import opened HandOver
  import opened TurnDelivery

  /** One second in which `early` is written before the tail is read, and `late` after it. */
  function Second(early: seq<Byte>, late: seq<Byte>, exitsLate: bool): Moment {
    Moment(1.0, early, false, late, exitsLate, false, Fine)
  }

  /** First `a` is written and read; then nothing new is read, `b` is written and the process exits. */
  function Start(a: seq<Byte>, b: seq<Byte>): World {
    World([], false, 0.0, [Second(a, [], false), Second([], b, true)])
  }

  const plan := Plan(true, 10.0, 5.0)

  lemma FirstRound(a: seq<Byte>, b: seq<Byte>)
    requires |a| <= MAX_TAIL_BYTES
    ensures var r := RoundOf(Start(a, b), 0, plan);
            r.bytes == a && r.seen.Pending? && r.after == World(a, false, 1.0, [Second([], b, true)])
  {
    assert a[0..] == a && [] + a + [] == a;
  }

  lemma SecondRound(a: seq<Byte>, b: seq<Byte>)
    ensures var r := RoundOf(World(a, false, 1.0, [Second([], b, true)]), |a|, plan);
            r.bytes == [] && r.seen.Done? && r.after == World(a + b, true, 2.0, []) && !r.entry.exitedAtRead
  {
    assert a + [] == a && a[|a|..] == [];
  }

  ghost function TheRun(a: seq<Byte>, b: seq<Byte>): Run {
    var first := RoundOf(Start(a, b), 0, plan);
    var second := RoundOf(World(a, false, 1.0, [Second([], b, true)]), |a|, plan);
    Run([first, second], Start(a, b), 0, plan, World(a + b, true, 2.0, []), |a|, Some(Done))
  }

  lemma TheRunIsOk(a: seq<Byte>, b: seq<Byte>)
    requires |a| <= MAX_TAIL_BYTES
    ensures TheRun(a, b).Ok() && Reads(TheRun(a, b).rounds) == [a, []]
  {
    var run := TheRun(a, b);
    FirstRound(a, b);
    SecondRound(a, b);
    var first := run.rounds[0];
    assert run.Before() == [first] && Init([first]) == [] && Last([first]) == first;
    assert Passed([], run.start, 0, plan, run.start, 0);
    assert Last(run.rounds) == run.rounds[1];
  }

  /** With a parser and a classifier that take every line, an output of the lines `a` and `b` of which `text` was
      read live: `a` is to be delivered, as `b` is the terminal line, and nothing is. */
  predicate Loses(text: string, whole: string, a: string, b: string) {
    var loads, classify := (l: string) => Some(l), (l: string) => Some([l]);
    && BatchEvents(loads, whole) == [a, b] && NarrateAll(classify, Init([a, b])) == [a]
    && Delivered(loads, classify, text, [a, b]) == []
  }

  /** What was read live and the whole output, for two one-letter lines `a` and `b`. */
  lemma Lines(a: char, b: char)
    requires !IsSpace(a) && !IsSpace(b) && !IsLineBreak(a) && !IsLineBreak(b)
    ensures Loses([a] + ['\n'], [a] + ['\n'] + ([b] + ['\n']), [a], [b])
  {
    var loads, classify := (l: string) => Some(l), (l: string) => Some([l]);
    var text, rest := [a] + ['\n'], [b] + ['\n'];
    OneLine(a);
    OneLine(b);
    SplitConcat(text, rest, '\n');
    assert "" + rest == rest && Init([[a], ""]) == [[a]];
    assert Split(text + rest, '\n') == [[a]] + [[b], ""];
    forall line | line in Split(text + rest, '\n') ensures NoBreak(Strip(line)) { StripEmpty(""); }
    KeptConcat([[a]], [[b], ""]);
    KeptConcat([[b]], [""]);
    assert [[b]] + [""] == [[b], ""];
    ReadersAgree(text + rest);
    AcceptedAll([[a]]);
    AcceptedAll(SplitLines(text + rest));
    assert [[a]] + [[b]] == [[a], [b]];
    assert Init([[a], [b]]) == [[a]] && Init([[a]]) == [];
  }

  lemma OneLine(c: char)
    requires !IsSpace(c) && !IsLineBreak(c)
    ensures Split([c] + ['\n'], '\n') == [[c], ""]
    ensures CompleteLines([c] + ['\n']) == [[c]] && OpenLine([c] + ['\n']) == ""
    ensures Kept([[c]]) == [[c]] && NoBreak([c]) && Strip([c]) == [c]
  {
    OneLetter(c);
    SplitAtSeparator([c], "", '\n');
    SplitPlain("", '\n');
    assert [c] + ['\n'] + "" == [c] + ['\n'];
  }

  lemma ReadTwice(encode: string -> seq<Byte>, decode: Decode, s: string)
    requires Encodes(encode, decode)
    ensures Decoded(decode, [encode(s), []]) == s && encode("") == []
  {
    EncodesNothing(encode, decode);
    var read := encode(s);
    assert decode(read) == s && decode(encode("")) == "";
    assert Init([read]) == [] && Decoded(decode, [read]) == s;
    var reads_ := [read, []];
    assert Init(reads_) == [read] && Last(reads_) == [];
  }

  lemma WholeReads(encode: string -> seq<Byte>, decode: Decode, s: string, t: string)
    requires Encodes(encode, decode) && encode("") == []
    ensures decode(encode(s) + encode(t)) == s + t
    ensures WholeCharacters(decode, [encode(s), []], encode(s) + encode(t))
  {
    var out := encode(s) + encode(t);
    assert encode(s + t) == out && decode(encode(s + t)) == s + t;
    assert IsText(encode, out) && IsText(encode, encode(s)) && IsText(encode, []);
  }

  /** The turn ends with DONE, and its reads were whole characters, but the last one came too early. */
  lemma TheRunReads(encode: string -> seq<Byte>, decode: Decode, s: string, t: string)
    requires Encodes(encode, decode) && |encode(s)| <= MAX_TAIL_BYTES
    ensures var run := TheRun(encode(s), encode(t));
            && run.Ok() && run.verdict == Some(Done) && !CompleteRead(run.Log())
            && WholeCharacters(decode, Reads(run.rounds), run.end.out)
            && run.Text(decode) == s && decode(run.end.out) == s + t
  {
    TheRunIsOk(encode(s), encode(t));
    SecondRound(encode(s), encode(t));
    ReadTwice(encode, decode, s);
    WholeReads(encode, decode, s, t);
  }

  /** Line `a` was read live and is held back, line `b` was not read: `a` is never delivered. */
  lemma LateExitLosesLine(encode: string -> seq<Byte>, decode: Decode, a: char, b: char)
    requires Encodes(encode, decode) && |encode([a] + ['\n'])| <= MAX_TAIL_BYTES
    requires !IsSpace(a) && !IsSpace(b) && !IsLineBreak(a) && !IsLineBreak(b)
    ensures var run := TheRun(encode([a] + ['\n']), encode([b] + ['\n']));
            && run.Ok() && run.verdict == Some(Done)
            && WholeCharacters(decode, Reads(run.rounds), run.end.out) && !CompleteRead(run.Log())
            && Loses(run.Text(decode), decode(run.end.out), [a], [b])
  {
    TheRunReads(encode, decode, [a] + ['\n'], [b] + ['\n']);
    Lines(a, b);
  }
}
