/** What a finished turn has delivered, in terms of the run of its poll loop. */
module TurnDelivery {
  import opened Text
  import opened Jsonl
  import opened Narration
  import opened HandOver
  import opened SandboxExec
  import opened WaitLoop

  /** The live part and the batch slice of a finished turn: what is delivered depends on the text of the reads
      of its run and on the whole output only.  If the reads cut the output between characters, that text
      starts the output, and nothing is missing exactly when the hand-over loses nothing; in particular when
      the last read was complete and the output ends with its last line.  Compared with all lines, the last
      one included, nothing is missing exactly when that line had nothing to narrate as well. */
  ghost predicate Settled<E, R>(loads: Loads<E>, classify: Classify<E, R>, run: Run, decode: Decode,
                                events: seq<E>, delivered: seq<R>)
  {
    var whole, text := decode(run.end.out), run.Text(decode);
    && events != [] && events == BatchEvents(loads, whole)
    && delivered == Delivered(loads, classify, text, events)
    && (WholeCharacters(decode, Reads(run.rounds), run.end.out) && OnlyNewlines(whole) ==>
          && text <= whole
          && (delivered == NarrateAll(classify, Init(events))
              <==> LosesNothing(loads, classify, text, whole[|text|..]))
          && (delivered == NarrateAll(classify, events)
              <==> LosesNothing(loads, classify, text, whole[|text|..]) && Narrate(classify, Last(events)) == [])
          && (CompleteRead(run.Log()) && Blank(OpenLine(whole)) ==>
                text == whole && delivered == NarrateAll(classify, Init(events))))
  }

  /** After a complete last read the text of the reads is that of the whole output. */
  lemma CaughtUp(run: Run, decode: Decode)
    requires run.Ok() && run.offset == 0 && run.verdict == Some(Done) && CompleteRead(run.Log())
    requires WholeCharacters(decode, Reads(run.rounds), run.end.out)
    ensures run.Text(decode) == decode(run.end.out)
  {
    CompleteReadIsWhole(run);
    RunText(run, decode);
  }

  lemma TurnSettles<E, R>(streamer: NarrationStreamer<E, R>, stdout: string, run: Run, decode: Decode)
    requires streamer.Valid() && streamer.Lagging() && streamer.text == run.Text(decode)
    requires run.Ok() && run.offset == 0 && run.verdict == Some(Done)
    requires stdout in {"", Strip(decode(run.end.out))} && BatchEvents(streamer.loads, stdout) != []
    ensures var events := BatchEvents(streamer.loads, stdout);
            var delivered := streamer.emitted + NarrateAll(streamer.classify, BatchSlice(events, streamer.streamedLineCount));
            Settled(streamer.loads, streamer.classify, run, decode, events, delivered)
  {
    var whole := decode(run.end.out);
    EndOfTurn(streamer, stdout, whole);
    if WholeCharacters(decode, Reads(run.rounds), run.end.out) && OnlyNewlines(whole) {
      RunText(run, decode);
      if CompleteRead(run.Log()) && Blank(OpenLine(whole)) {
        CaughtUp(run, decode);
        CaughtUpLosesNothing(streamer.loads, streamer.classify, whole);
      }
    }
  }
}
