/** The hand-over from the live narration to the batch parser at the end of a turn: the batch translates
    only `events[streamed_line_count:-1]`.  Both chat models do this, each with its own classifier. */
module HandOver {
  import opened Text
  import opened Jsonl
  import opened Narration

  /** `events[k:-1]`. */
  function BatchSlice<T>(events: seq<T>, k: nat): seq<T> {
    if k < |events| then events[k..|events| - 1] else []
  }

  /** The indices, in the batch list of `n` lines, that are handed on when `k` lines were streamed and the
      streamed lines are those at the head of that list: the live path is one line behind, the batch starts
      at `k`. */
  function HandedOn(n: nat, k: nat): seq<nat> {
    seq(if k == 0 then 0 else k - 1, i => i) + seq(if k < n then n - 1 - k else 0, i => k + i)
  }

  /** Never twice and never out of order; never the terminal line `n - 1`, and the only other line that can be
      missing is `k - 1`, the one held back when the loop broke. */
  lemma AtMostOnce(n: nat, k: nat)
    requires k <= n
    ensures forall i, j | 0 <= i < j < |HandedOn(n, k)| :: HandedOn(n, k)[i] < HandedOn(n, k)[j]
    ensures forall line: nat :: line in HandedOn(n, k) <==> line + 1 < n && line + 1 != k
  {
    var lines := HandedOn(n, k);
    forall line: nat | line + 1 < n && line + 1 != k
      ensures line in lines
    {
      if line + 1 < k {
        assert lines[line] == line;
      } else {
        assert lines[(if k == 0 then 0 else k - 1) + (line - k)] == line;
      }
    }
  }

  /** What reaches the event log when `text` was consumed live and the batch sees `events`. */
  function Delivered<E, R>(loads: Loads<E>, classify: Classify<E, R>, text: string, events: seq<E>): seq<R> {
    var seen := StreamEvents(loads, text);
    NarrateAll(classify, AllButLast(seen)) + NarrateAll(classify, BatchSlice(events, |seen|))
  }

  /** The lines that a list of indices picks. */
  function Picked<T>(events: seq<T>, lines: seq<nat>): seq<T>
    requires forall i | 0 <= i < |lines| :: lines[i] < |events|
  {
    seq(|lines|, i requires 0 <= i < |lines| => events[lines[i]])
  }

  lemma PickedLines<T>(events: seq<T>, k: nat)
    requires k <= |events| + 1
    ensures forall i | 0 <= i < |HandedOn(|events|, k)| :: HandedOn(|events|, k)[i] < |events|
    ensures Picked(events, HandedOn(|events|, k))
         == events[..if k == 0 then 0 else k - 1] + BatchSlice(events, k)
  {
  }

  /** The non-blank complete lines of `text`, all but the last of which are single lines to the batch too. */
  predicate CleanBefore(text: string) {
    forall line | line in AllButLast(Kept(CompleteLines(text))) :: NoBreak(line)
  }

  lemma OneLine<E>(loads: Loads<E>, line: string)
    ensures Kept([line]) == if Strip(line) == "" then [] else [Strip(line)]
    ensures |Accepted(loads, [line])| <= 1 && (Strip(line) == "" ==> Accepted(loads, [line]) == [])
  {
    assert [line][1..] == [];
  }

  lemma AllButLastOf<T>(a: seq<T>, b: seq<T>)
    requires |b| <= 1
    ensures AllButLast(a + b) == if b == [] then AllButLast(a) else a
  {
    assert a + [] == a;
  }

  lemma {:induction false} LivePrefix<E>(loads: Loads<E>, complete: seq<string>)
    requires forall line | line in AllButLast(Kept(complete)) :: NoBreak(line)
    ensures AllButLast(Accepted(loads, complete)) <= Accepted(loads, LinesOf(complete))
  {
    if complete != [] {
      var front, last := Init(complete), Last(complete);
      assert complete == front + [last];
      KeptConcat(front, [last]);
      AcceptedConcat(loads, front, [last]);
      LinesOfConcat(front, [last]);
      AcceptedConcat(loads, LinesOf(front), LinesOf([last]));
      OneLine(loads, last);
      AllButLastOf(Kept(front), Kept([last]));
      AllButLastOf(Accepted(loads, front), Accepted(loads, [last]));
      if Strip(last) == "" {
        LivePrefix(loads, front);
      } else {
        CleanLines(loads, front);
      }
    }
  }

  lemma CleanLines<E>(loads: Loads<E>, lines: seq<string>)
    requires forall line | line in Kept(lines) :: NoBreak(line)
    ensures Accepted(loads, LinesOf(lines)) == Accepted(loads, lines)
  {
    KeptElements(lines);
    KeptByLineClean(lines);
    KeptOfLines(lines);
    AcceptedFromKept(loads, lines, LinesOf(lines));
  }

  lemma {:induction false} LinesOfConcat(a: seq<string>, b: seq<string>)
    ensures LinesOf(a + b) == LinesOf(a) + LinesOf(b)
  {
    if a == [] {
      assert a + b == b;
    } else {
      assert (a + b)[1..] == a[1..] + b;
      LinesOfConcat(a[1..], b);
    }
  }

  lemma {:induction false} KeptElements(lines: seq<string>)
    ensures forall line | line in lines :: Strip(line) == "" || Strip(line) in Kept(lines)
    ensures forall kept | kept in Kept(lines) :: kept != "" && exists line :: line in lines && kept == Strip(line)
  {
    if lines != [] {
      KeptElements(lines[1..]);
    }
  }

  /** Then every delivered line is one of the batch's, at the indices `HandedOn`: none of them twice. */
  lemma DeliveredLines<E, R>(loads: Loads<E>, classify: Classify<E, R>, text: string, unread: string)
    requires CleanBefore(text)
    ensures var events := BatchEvents(loads, text + unread);
            var lines := HandedOn(|events|, |StreamEvents(loads, text)|);
            && (forall i | 0 <= i < |lines| :: lines[i] < |events|)
            && Delivered(loads, classify, text, events) == NarrateAll(classify, Picked(events, lines))
  {
    var events, seen := BatchEvents(loads, text + unread), StreamEvents(loads, text);
    BatchByLine(loads, text, unread);
    LivePrefix(loads, CompleteLines(text));
    assert AllButLast(seen) <= events;
    PickedLines(events, |seen|);
    assert events[..|AllButLast(seen)|] == AllButLast(seen);
    NarrateConcat(classify, AllButLast(seen), BatchSlice(events, |seen|));
  }

  /** Nothing was accepted live, or nothing is accepted beyond what was consumed, or the line held back
      had nothing to narrate. */
  predicate LosesNothing<E, R>(loads: Loads<E>, classify: Classify<E, R>, text: string, unread: string) {
    || StreamEvents(loads, text) == []
    || BatchEvents(loads, OpenLine(text) + unread) == []
    || Narrate(classify, Last(StreamEvents(loads, text))) == []
  }

  /** The hand-over is complete exactly then; otherwise the line held back is the one that is lost. */
  lemma HandOverComplete<E, R>(loads: Loads<E>, classify: Classify<E, R>, text: string, unread: string)
    requires OnlyNewlines(text + unread) && BatchEvents(loads, text + unread) != []
    ensures var events, seen := BatchEvents(loads, text + unread), StreamEvents(loads, text);
            var rest, delivered := BatchEvents(loads, OpenLine(text) + unread), Delivered(loads, classify, text, events);
            && events == seen + rest
            && (delivered == NarrateAll(classify, Init(events)) <==> LosesNothing(loads, classify, text, unread))
            && (seen != [] && rest != [] ==>
                  && delivered == NarrateAll(classify, Init(seen)) + NarrateAll(classify, Init(rest))
                  && NarrateAll(classify, Init(events))
                  == NarrateAll(classify, Init(seen)) + Narrate(classify, Last(seen)) + NarrateAll(classify, Init(rest)))
  {
    StreamIsPrefixOfBatch(loads, text, unread);
    var events, seen := BatchEvents(loads, text + unread), StreamEvents(loads, text);
    var rest := BatchEvents(loads, OpenLine(text) + unread);
    assert events == seen + rest;
    if rest == [] {
      assert events == seen;
    } else {
      assert BatchSlice(events, |seen|) == Init(rest);
      assert Init(events) == seen + Init(rest);
      NarrateConcat(classify, seen, Init(rest));
    }
  }

  /** Compared with all lines, the last one included, nothing is missing exactly when that line had nothing to
      narrate as well. */
  lemma NothingMissing<E, R>(loads: Loads<E>, classify: Classify<E, R>, text: string, unread: string)
    requires OnlyNewlines(text + unread) && BatchEvents(loads, text + unread) != []
    ensures var events := BatchEvents(loads, text + unread);
            Delivered(loads, classify, text, events) == NarrateAll(classify, events)
            <==> LosesNothing(loads, classify, text, unread) && Narrate(classify, Last(events)) == []
  {
    HandOverComplete(loads, classify, text, unread);
  }

  /** In particular nothing is lost when the last read caught up with an output that ends in "\n". */
  lemma CaughtUpLosesNothing<E, R>(loads: Loads<E>, classify: Classify<E, R>, text: string)
    requires OnlyNewlines(text) && BatchEvents(loads, text) != [] && Blank(OpenLine(text))
    ensures var events := BatchEvents(loads, text);
            Delivered(loads, classify, text, events) == NarrateAll(classify, Init(events))
  {
    assert text + "" == text && OpenLine(text) + "" == OpenLine(text);
    HandOverComplete(loads, classify, text, "");
    KeptBlankEnd("", OpenLine(text));
    StripEmpty("");
    AcceptedFromKept(loads, SplitLines(OpenLine(text)), []);
  }

  /** Two one-letter lines, the second without its newline, read by a parser that accepts every line and a
      classifier that narrates it: the first is held back and then skipped. */
  lemma UnterminatedLastLineExample(a: char, b: char)
    requires !IsSpace(a) && !IsSpace(b) && !IsLineBreak(a) && !IsLineBreak(b)
    ensures var loads, classify := (l: string) => Some(l), (l: string) => Some([l]);
            var text := [a] + ['\n'] + [b];
            && BatchEvents(loads, text) == [[a], [b]]
            && Delivered(loads, classify, text, [[a], [b]]) == []
            && NarrateAll(classify, Init([[a], [b]])) == [[a]]
  {
    var loads, classify := (l: string) => Some(l), (l: string) => Some([l]);
    var text := [a] + ['\n'] + [b];
    OneLetter(a);
    OneLetter(b);
    SplitAtSeparator([a], [b], '\n');
    assert Split(text, '\n') == [[a], [b]] && CompleteLines(text) == [[a]] && OpenLine(text) == [b];
    ReadersAgree(text);
    AcceptedAll([[a]]);
    AcceptedAll(SplitLines(text));
    KeptConcat([[a]], [[b]]);
    assert [[a]] + [[b]] == [[a], [b]];
    assert Init([[a], [b]]) == [[a]] && Init([[a]]) == [];
  }

  lemma OneLetter(c: char)
    requires !IsSpace(c) && !IsLineBreak(c)
    ensures Strip([c]) == [c] && NoBreak([c]) && Split([c], '\n') == [[c]] && Kept([[c]]) == [[c]]
  {
    StripTrimmed([c]);
    SplitPlain([c], '\n');
    assert Init([[c]]) == [];
  }

  /** The end of a finished turn: what was emitted live, followed by the narration of the batch slice.
      `whole` is the text of the output file, `stdout` the stripped copy of it that was read back. */
  lemma EndOfTurn<E, R>(streamer: NarrationStreamer<E, R>, stdout: string, whole: string)
    requires streamer.Valid() && streamer.Lagging() && stdout in {"", Strip(whole)}
    requires BatchEvents(streamer.loads, stdout) != []
    ensures var loads, classify, text := streamer.loads, streamer.classify, streamer.text;
            var events := BatchEvents(loads, stdout);
            var delivered := streamer.emitted + NarrateAll(classify, BatchSlice(events, streamer.streamedLineCount));
            && events == BatchEvents(loads, whole)
            && delivered == Delivered(loads, classify, text, events)
            && (text <= whole && OnlyNewlines(whole) ==>
                  var complete := LosesNothing(loads, classify, text, whole[|text|..]);
                  && (delivered == NarrateAll(classify, Init(events)) <==> complete)
                  && (delivered == NarrateAll(classify, events) <==> complete && Narrate(classify, Last(events)) == []))
  {
    var loads, text := streamer.loads, streamer.text;
    BatchIgnoresOuterSpace(loads, whole);
    StripEmpty("");
    if text <= whole && OnlyNewlines(whole) {
      assert whole == text + whole[|text|..];
      HandOverComplete(loads, streamer.classify, text, whole[|text|..]);
      NothingMissing(loads, streamer.classify, text, whole[|text|..]);
    }
  }
}
