/** A Claude turn as far as its run events are concerned. */
module ClaudeTurn {
  import opened Text
  import opened Jsonl
  import opened Narration
  import opened HandOver
  import opened SandboxExec
  import opened WaitLoop
  import opened TurnRunner
  import opened TurnDelivery
  import opened ClaudeEvents

  /** The turn succeeded: it has a terminal line, exit code 0 and no reported error. */
  predicate Answered(events: seq<Dict>, exitCode: int) {
    events != [] && exitCode == 0 && !Truthy(Get(Last(events), "is_error"))
  }

  /** The batch half: parse the whole output and, for a successful turn, translate what the live half did
      not cover. */
  method TranslateRest(loads: Loads<Dict>, result: TurnResult)
    returns (events: seq<Dict>, translated: seq<RunEvent>)
    ensures events == BatchEvents(loads, result.stdout)
    ensures var slice := BatchSlice(events, result.streamedLineCount);
            translated == if Answered(events, result.exitCode)
                          then BlockEvents(AllBlocks(slice), Lookup(BatchResults(slice))) else []
  {
    events := ParseOutput(loads, result.stdout);
    translated := [];
    if Answered(events, result.exitCode) {
      translated := TranslateIntermediateEvents(BatchSlice(events, result.streamedLineCount));
    }
  }

  /** A whole turn: narrate while it runs, then translate the rest of a successful one.  `events` is what
      the batch parser saw, `run` the run of the poll loop, which the world determines. */
  method NarrateTurn(sandbox: Sandbox, loads: Loads<Dict>, writes: nat, timeoutSeconds: real, pollSeconds: real)
    returns (exit: Exit, delivered: seq<RunEvent>, events: seq<Dict>, streamer: NarrationStreamer<Dict, RunEvent>,
             ghost run: Option<Run>)
    requires sandbox.base64.Sound()
    modifies sandbox
    ensures streamer.Valid() && streamer.consumed <= sandbox.out && streamer.loads == loads
    ensures TurnRan(run, old(sandbox.View()), true, writes, timeoutSeconds, pollSeconds)
    ensures streamer.text == TurnText(run, sandbox.decode)
    ensures exit.Finished? ==> Finishes(run) && run.value.end.out == sandbox.out
    ensures exit.Finished? && CompleteRead(run.value.Log()) ==> streamer.consumed == sandbox.out
    ensures exit.Finished? ==> events == BatchEvents(loads, exit.result.stdout)
    ensures exit.Finished? && events != [] && exit.result.exitCode == 0 && !Truthy(Get(Last(events), "is_error")) ==>
              Settled(loads, ClassifyLine(), run.value, sandbox.decode, events, EraseAll(delivered))
    ensures var seen := StreamEvents(loads, TurnText(run, sandbox.decode));
            && (exit.Finished? && events != [] && exit.result.exitCode == 0 && !Truthy(Get(Last(events), "is_error")) ==>
                  var slice := BatchSlice(events, |seen|);
                  delivered == NarrateAll(ClassifyLine(), AllButLast(seen))
                               + BlockEvents(AllBlocks(slice), Lookup(BatchResults(slice))))
            && (exit.Finished? && (events == [] || exit.result.exitCode != 0 || Truthy(Get(Last(events), "is_error"))) ==>
                  delivered == NarrateAll(ClassifyLine(), AllButLast(seen)))
            && (exit.TurnTimeout? || exit.TurnCrashed? ==> run.Some? && delivered == NarrateAll(ClassifyLine(), seen))
            && (exit.Failed? ==> delivered <= NarrateAll(ClassifyLine(), seen))
  {
    ghost var worked, closing, ended;
    exit, streamer, run, worked, closing, ended :=
      RunTurn(sandbox, loads, ClassifyLine(), true, writes, timeoutSeconds, pollSeconds);
    events, delivered := [], streamer.emitted;
    if exit.Finished? {
      var translated;
      events, translated := TranslateRest(loads, exit.result);
      delivered := delivered + translated;
      if Answered(events, exit.result.exitCode) {
        TurnSettles(streamer, exit.result.stdout, run.value, sandbox.decode);
        EraseConcat(streamer.emitted, translated);
        NarratedIsErased(AllButLast(streamer.Seen()));
        var slice := BatchSlice(events, exit.result.streamedLineCount);
        BatchIsLive(slice, Lookup(BatchResults(slice)));
      }
    }
  }
}
