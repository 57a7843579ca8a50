/** `run_turn`: one backgrounded CLI turn, from writing its prompt to removing its scratch files. */
module TurnRunner {
  import opened Text
  import opened Jsonl
  import opened Narration
  import opened SandboxExec
  import opened WaitLoop

  datatype TurnResult = TurnResult(stdout: string, stderr: string, exitCode: int, streamedLineCount: nat)

  /** How `run_turn` ends.  `TurnTimeout`, `TurnCrashed` and `Failed(TimedOut)` are TimeoutErrors. */
  datatype Exit =
    | Finished(result: TurnResult)
    | TurnTimeout(partialStdout: string)
    | TurnCrashed(partialStdout: string)
    | Failed(failure: Failure)

  datatype LoopEnd = BrokeOnDone | Left(exit: Exit)

  /** From one log to a later one, only commands in `allowed` were issued. */
  ghost predicate IssuedOnly(before: seq<Entry>, after: seq<Entry>, allowed: set<Command>) {
    before <= after && forall i | |before| <= i < |after| :: after[i].Issued() in allowed
  }

  /** What the `finally` block issues: an unfinished turn is killed first, and cleanup comes last unless
      that kill throws. */
  predicate Closing(entries: seq<Entry>, finished: bool) {
    && (forall e | e in entries :: e.Entry?)
    && if finished then |entries| == 1 && entries[0].command == Cleanup
       else
         && 1 <= |entries| <= 2 && entries[0].command == Kill
         && (if entries[0].reply.Threw? then |entries| == 1 else |entries| == 2 && entries[1].command == Cleanup)
  }

  lemma StatusWordsDistinct()
    ensures Contains(DONE, DONE) && !Contains(DEAD, DONE) && !Contains(PENDING, DONE)
    ensures Contains(DEAD, DEAD) && !Contains(PENDING, DEAD)
  {
    assert OccursAt(DONE, DONE, 0) && OccursAt(DEAD, DEAD, 0);
    assert DEAD[1] == 'E';
    forall i: nat, word | word == DONE || word == DEAD
      ensures !OccursAt(PENDING, word, i)
    {
      if i <= 3 {
        assert PENDING[i..i + 4][0] == PENDING[i] && PENDING[i..i + 4][1] == PENDING[i + 1];
      }
    }
  }

  /** What a killed or dead turn reports: the reply to the last command, which read the head of the output
      `out` as it was then. */
  ghost predicate Partial(decode: Decode, log: seq<Entry>, out: seq<Byte>, partialStdout: string) {
    && log != [] && Last(log).Entry? && Last(log).command == Head && Last(log).reply.Replied?
    && partialStdout == if Last(log).reply.ok then Strip(decode(HeadOf(out))) else ""
  }

  /** A streaming turn that is given up narrates the line it still holds back. */
  method FlushAll<E, R>(streamer: NarrationStreamer<E, R>, streaming: bool)
    requires streamer.Valid()
    modifies streamer`pending, streamer`emitted
    ensures streamer.Valid() && (streaming ==> streamer.emitted == NarrateAll(streamer.classify, streamer.Seen()))
  {
    if streaming {
      streamer.FlushPending();
      assert streamer.emitted + streamer.pending == streamer.emitted;
    }
  }

  /** The timeout branch: kill the process group, then flush, then keep the head of the output. */
  method GiveUp<E, R>(sandbox: Sandbox, streamer: NarrationStreamer<E, R>, streaming: bool) returns (exit: Exit)
    requires streamer.Valid()
    modifies sandbox, streamer`pending, streamer`emitted
    ensures streamer.Valid() && sandbox.Progress()
    ensures exit.TurnTimeout? || ThrewLast(sandbox.log, {Kill, Head}, exit)
    ensures exit.TurnTimeout? ==>
              && |sandbox.log| == |old(sandbox.log)| + 2
              && sandbox.log[|old(sandbox.log)|].Issued() == Kill
              && Partial(sandbox.decode, sandbox.log, sandbox.out, exit.partialStdout)
              && (streaming ==> streamer.emitted == NarrateAll(streamer.classify, streamer.Seen()))
    ensures IssuedOnly(old(sandbox.log), sandbox.log, {Kill, Head})
  {
    var killed := sandbox.Exec(Kill);
    if killed.Threw? { return Failed(killed.failure); }
    FlushAll(streamer, streaming);
    ghost var log := sandbox.log;
    var partial := sandbox.Exec(Head);
    assert Last(sandbox.log) == Entry(Head, partial) && sandbox.log == log + [Entry(Head, partial)];
    if partial.Threw? { return Failed(partial.failure); }
    return TurnTimeout(if partial.ok then partial.stdout else "");
  }

  /** The DEAD branch: flush, then keep the head of the output. */
  method ReportCrash<E, R>(sandbox: Sandbox, streamer: NarrationStreamer<E, R>, streaming: bool) returns (exit: Exit)
    requires streamer.Valid()
    modifies sandbox, streamer`pending, streamer`emitted
    ensures streamer.Valid() && sandbox.Progress()
    ensures exit.TurnCrashed? || ThrewLast(sandbox.log, {Head}, exit)
    ensures exit.TurnCrashed? ==> Partial(sandbox.decode, sandbox.log, sandbox.out, exit.partialStdout)
    ensures exit.TurnCrashed? && streaming ==> streamer.emitted == NarrateAll(streamer.classify, streamer.Seen())
    ensures IssuedOnly(old(sandbox.log), sandbox.log, {Head})
  {
    FlushAll(streamer, streaming);
    var partial := sandbox.Exec(Head);
    if partial.Threw? { return Failed(partial.failure); }
    return TurnCrashed(if partial.ok then partial.stdout else "");
  }

  /** The streamer decodes as the sandbox does, has read a prefix of the output and holds exactly the last line
      back. */
  ghost predicate Reading<E, R>(sandbox: Sandbox, streamer: NarrationStreamer<E, R>)
    reads sandbox, streamer
  {
    streamer.decode == sandbox.decode && streamer.Valid() && streamer.Lagging() && streamer.consumed <= sandbox.out
  }

  /** One iteration's wait and what it makes of the reply: the round `r`. */
  method WaitOnce<E, R>(sandbox: Sandbox, streamer: NarrationStreamer<E, R>, plan: Plan)
    returns (seen: Sighting, ghost r: Round)
    requires sandbox.base64.Sound() && Reading(sandbox, streamer) && plan.deadline - sandbox.clock > 0.0
    modifies sandbox, streamer
    ensures Reading(sandbox, streamer)
    ensures r.before == old(sandbox.View()) && r.offset == old(streamer.byteOffset) && IsRound(r, plan)
    ensures seen == r.seen && sandbox.View() == r.after && streamer.byteOffset == r.offset + |r.bytes|
    ensures sandbox.log == old(sandbox.log) + [r.entry]
    ensures streamer.text == old(streamer.text) + Heard(sandbox.decode, r.bytes)
  {
    StatusWordsDistinct();
    EmptyReply(sandbox.base64);
    ghost var w := sandbox.View();
    r := RoundOf(w, streamer.byteOffset, plan);
    assert w.out[..streamer.byteOffset] == streamer.consumed;
    ReadsInside(w, streamer.byteOffset, plan);
    var bound := plan.Bound(sandbox.clock);
    var reply := sandbox.PollOnce(streamer.byteOffset, plan.streaming, bound);
    if reply.Threw? {
      seen := Thrown(reply.failure);
    } else if plan.streaming {
      var (newBytes, status) := ReadTail(sandbox.base64, if reply.ok then reply.stdout else "");
      var hitCap := |newBytes| >= MAX_TAIL_BYTES;
      assert newBytes == r.bytes;
      streamer.ConsumeTail(newBytes);
      seen := if status == DONE && !hitCap then Done else if status == DEAD then Dead else Pending;
    } else {
      seen := if reply.ok && Contains(reply.stdout, DONE) then Done
              else if reply.ok && Contains(reply.stdout, DEAD) then Dead
              else Pending;
    }
  }

  /** The entries that the rounds add to a log, and the text that their reads add to a streamer's. */
  ghost predicate Added(rounds: seq<Round>, decode: Decode, log0: seq<Entry>, text0: string, log: seq<Entry>, text: string) {
    log == log0 + Entries(rounds) && text == text0 + Decoded(decode, Reads(rounds))
  }

  lemma AddedNext(past: seq<Round>, r: Round, decode: Decode, log0: seq<Entry>, text0: string, log: seq<Entry>, text: string)
    requires Added(past, decode, log0, text0, log, text)
    ensures Added(past + [r], decode, log0, text0, log + [r.entry], text + Heard(decode, r.bytes))
  {
    ReadsNext(past, r);
    assert Init(Reads(past) + [r.bytes]) == Reads(past);
    assert Entries(past + [r]) == Entries(past) + [r.entry];
  }

  /** One more round on top of those before it. */
  method Iterate<E, R>(sandbox: Sandbox, streamer: NarrationStreamer<E, R>, plan: Plan,
                       ghost past: seq<Round>, ghost w: World, ghost offset: nat,
                       ghost log0: seq<Entry>, ghost text0: string)
    returns (seen: Sighting, ghost now: seq<Round>)
    requires sandbox.base64.Sound() && Reading(sandbox, streamer) && plan.deadline - sandbox.clock > 0.0
    requires Passed(past, w, offset, plan, sandbox.View(), streamer.byteOffset)
    requires Added(past, sandbox.decode, log0, text0, sandbox.log, streamer.text)
    modifies sandbox, streamer
    ensures Reading(sandbox, streamer)
    ensures Added(now, sandbox.decode, log0, text0, sandbox.log, streamer.text)
    ensures seen.Pending? ==> |sandbox.script| < |old(sandbox.script)|
    ensures Onwards(now, w, offset, plan, sandbox.View(), streamer.byteOffset, seen)
  {
    ghost var r;
    seen, r := WaitOnce(sandbox, streamer, plan);
    now := past + [r];
    RoundsNext(past, w, offset, plan, r, sandbox.View(), streamer.byteOffset, seen);
    AddedNext(past, r, sandbox.decode, log0, text0, old(sandbox.log), old(streamer.text));
  }

  /** The waits of one turn: how they ended (`None`: out of time), and the run of the loop. */
  method WaitForExit<E, R>(sandbox: Sandbox, streamer: NarrationStreamer<E, R>, plan: Plan)
    returns (verdict: Option<Sighting>, ghost run: Run)
    requires sandbox.base64.Sound() && Reading(sandbox, streamer)
    modifies sandbox, streamer
    ensures Reading(sandbox, streamer)
    ensures run.Ok() && run.start == old(sandbox.View()) && run.offset == old(streamer.byteOffset) && run.plan == plan
    ensures run.verdict == verdict && run.end == sandbox.View() && run.at == streamer.byteOffset
    ensures sandbox.log == old(sandbox.log) + run.Log() && run.verdict != Some(Pending)
    ensures streamer.text == old(streamer.text) + run.Text(sandbox.decode)
  {
    ghost var w, offset := sandbox.View(), streamer.byteOffset;
    ghost var rounds: seq<Round> := [];
    while plan.deadline - sandbox.clock > 0.0
      invariant Reading(sandbox, streamer)
      invariant Passed(rounds, w, offset, plan, sandbox.View(), streamer.byteOffset)
      invariant Added(rounds, sandbox.decode, old(sandbox.log), old(streamer.text), sandbox.log, streamer.text)
      decreases |sandbox.script|
    {
      var seen;
      seen, rounds := Iterate(sandbox, streamer, plan, rounds, w, offset, old(sandbox.log), old(streamer.text));
      if !seen.Pending? {
        return Some(seen), Run(rounds, w, offset, plan, sandbox.View(), streamer.byteOffset, Some(seen));
      }
    }
    return None, Run(rounds, w, offset, plan, sandbox.View(), streamer.byteOffset, None);
  }

  /** What follows the waits: nothing after DONE, the timeout branch or the DEAD branch. */
  method LeaveLoop<E, R>(sandbox: Sandbox, streamer: NarrationStreamer<E, R>, streaming: bool, verdict: Option<Sighting>)
    returns (end: LoopEnd)
    requires streamer.Valid() && verdict != Some(Pending)
    modifies sandbox, streamer`pending, streamer`emitted
    ensures streamer.Valid() && sandbox.Progress() && IssuedOnly(old(sandbox.log), sandbox.log, {Kill, Head})
    ensures end.BrokeOnDone? <==> verdict == Some(Done)
    ensures end.BrokeOnDone? ==> sandbox.View() == old(sandbox.View()) && sandbox.log == old(sandbox.log)
    ensures end.BrokeOnDone? ==> streamer.emitted == old(streamer.emitted)
    ensures end.Left? ==> LeftWith(sandbox.decode, sandbox.log, sandbox.out, streamer, streaming, verdict, end.exit)
  {
    if verdict == Some(Done) {
      return BrokeOnDone;
    }
    if verdict.Some? && verdict.value.Thrown? {
      return Left(Failed(verdict.value.failure));
    }
    var exit;
    if verdict.None? {
      exit := GiveUp(sandbox, streamer, streaming);
    } else {
      exit := ReportCrash(sandbox, streamer, streaming);
    }
    return Left(exit);
  }

  /** The turn ended with what one of `commands`, issued last, threw. */
  ghost predicate ThrewLast(log: seq<Entry>, commands: set<Command>, exit: Exit) {
    && log != [] && Last(log).Entry? && Last(log).command in commands
    && Last(log).reply.Threw? && exit == Failed(Last(log).reply.failure)
  }

  /** A turn that ran out of time or died is reported so, unless the kill or the last read threw; it has narrated
      every line, and reports the head of its output. */
  ghost predicate LeftWith<E, R>(decode: Decode, log: seq<Entry>, out: seq<Byte>, streamer: NarrationStreamer<E, R>,
                                 streaming: bool, verdict: Option<Sighting>, exit: Exit)
    reads streamer
  {
    && !exit.Finished? && (exit.TurnTimeout? ==> verdict == None) && (exit.TurnCrashed? ==> verdict == Some(Dead))
    && (verdict == None ==> exit.TurnTimeout? || ThrewLast(log, {Kill, Head}, exit))
    && (verdict == Some(Dead) ==> exit.TurnCrashed? || ThrewLast(log, {Head}, exit))
    && (verdict.Some? && verdict.value.Thrown? ==> exit == Failed(verdict.value.failure))
    && (exit.TurnTimeout? || exit.TurnCrashed? ==>
          && Partial(decode, log, out, exit.partialStdout)
          && (streaming ==> streamer.emitted == NarrateAll(streamer.classify, streamer.Seen())))
  }

  /** The poll loop with what follows its ways out. */
  method PollLoop<E, R>(sandbox: Sandbox, streamer: NarrationStreamer<E, R>, streaming: bool,
                        timeoutSeconds: real, pollSeconds: real)
    returns (end: LoopEnd, ghost run: Run)
    requires sandbox.base64.Sound() && Reading(sandbox, streamer)
    modifies sandbox, streamer
    ensures streamer.Valid() && streamer.consumed <= sandbox.out
    ensures streamer.text == old(streamer.text) + run.Text(sandbox.decode)
    ensures run.Ok() && run.start == old(sandbox.View()) && run.offset == old(streamer.byteOffset)
    ensures run.plan == Plan(streaming, old(sandbox.clock) + timeoutSeconds, pollSeconds)
    ensures run.at == streamer.byteOffset && run.end.LeadsTo(sandbox.View())
    ensures IssuedOnly(old(sandbox.log) + run.Log(), sandbox.log, {Kill, Head})
    ensures end.BrokeOnDone? <==> run.verdict == Some(Done)
    ensures end.BrokeOnDone? ==>
              sandbox.View() == run.end && sandbox.log == old(sandbox.log) + run.Log() && streamer.Lagging()
    ensures end.Left? ==> LeftWith(sandbox.decode, sandbox.log, sandbox.out, streamer, streaming, run.verdict, end.exit)
  {
    var plan := Plan(streaming, sandbox.clock + timeoutSeconds, pollSeconds);
    var verdict;
    verdict, run := WaitForExit(sandbox, streamer, plan);
    end := LeaveLoop(sandbox, streamer, streaming, verdict);
    assert streamer.consumed <= run.end.out <= sandbox.out;
  }

  /** A command that comes back with exit code 0. */
  predicate Succeeds(w: World) {
    w.Fails(None).None? && !w.script[0].outcome.NotOk?
  }

  /** The world once `writes` execs have written the prompt and one has launched the turn, all successfully. */
  function Launched(w: World, writes: nat): Option<World>
    decreases writes
  {
    if !Succeeds(w) then None
    else if writes == 0 then Some(w.AfterExec(None))
    else Launched(w.AfterExec(None), writes - 1)
  }

  /** What the log says about a launch: it stops at the first command that throws or fails, and reports that. */
  ghost predicate LaunchLogged(before: seq<Entry>, log: seq<Entry>, writes: nat, failed: Option<Failure>) {
    && before <= log && |before| < |log| <= |before| + writes + 1
    && (forall i | |before| <= i < |log| - 1 :: Succeeded(log[i]))
    && (failed.None? <==> |log| == |before| + writes + 1 && Succeeded(Last(log)))
    && (failed.Some? ==> Last(log).Entry? && !Succeeded(Last(log))
                         && failed.value == if Last(log).reply.Threw? then Last(log).reply.failure else Error)
  }

  /** `write_scratch_file` for the prompt (one exec or several), then the backgrounded launch. */
  method WriteAndLaunch(sandbox: Sandbox, writes: nat) returns (failed: Option<Failure>)
    modifies sandbox
    ensures sandbox.Progress() && IssuedOnly(old(sandbox.log), sandbox.log, {WriteScratch, Launch})
    ensures failed.None? <==> Launched(old(sandbox.View()), writes).Some?
    ensures failed.None? ==>
              && sandbox.View() == Launched(old(sandbox.View()), writes).value
              && |sandbox.log| == |old(sandbox.log)| + writes + 1
              && Last(sandbox.log).Issued() == Launch
              && forall i | |old(sandbox.log)| <= i < |sandbox.log| - 1 :: sandbox.log[i].Issued() == WriteScratch
    ensures LaunchLogged(old(sandbox.log), sandbox.log, writes, failed)
  {
    ghost var start := sandbox.View();
    for i := 0 to writes
      invariant sandbox.Progress() && IssuedOnly(old(sandbox.log), sandbox.log, {WriteScratch})
      invariant |sandbox.log| == |old(sandbox.log)| + i
      invariant forall j | |old(sandbox.log)| <= j < |sandbox.log| :: Succeeded(sandbox.log[j])
      invariant Launched(start, writes) == Launched(sandbox.View(), writes - i)
    {
      var written := sandbox.Exec(WriteScratch);
      if written.Threw? { return Some(written.failure); }
      if !written.ok { return Some(Error); }
    }
    var launched := sandbox.Exec(Launch);
    if launched.Threw? { return Some(launched.failure); }
    if !launched.ok { return Some(Error); }
    return None;
  }

  /** A finished turn's result, from the three replies that end the log: `out` is the whole output. */
  ghost predicate ResultsRead(decode: Decode, stderr: string, exitStatus: Option<int>, log: seq<Entry>,
                              out: seq<Byte>, result: TurnResult) {
    var n := |log|;
    && n >= 3 && log[n - 3].Entry? && log[n - 2].Entry? && log[n - 1].Entry?
    && log[n - 3].command == CatOut && log[n - 2].command == CatErr && log[n - 1].command == CatExit
    && result.stdout == (if log[n - 3].reply.TextIfOk() == "" then "" else Strip(decode(out)))
    && (Succeeded(log[n - 3]) ==> result.stdout == Strip(decode(out)))
    && result.stderr == (if Succeeded(log[n - 2]) then stderr else "")
    && result.exitCode == if Succeeded(log[n - 1]) && exitStatus.Some? then exitStatus.value else 1
  }

  predicate Succeeded(e: Entry) {
    e.Entry? && e.reply.Replied? && e.reply.ok
  }

  /** Reading the results of a finished turn. */
  method ReadResults(sandbox: Sandbox, streamedLineCount: nat) returns (exit: Exit)
    requires sandbox.exitFile
    modifies sandbox
    ensures sandbox.Progress() && IssuedOnly(old(sandbox.log), sandbox.log, {CatOut, CatErr, CatExit})
    ensures exit.Finished? || ThrewLast(sandbox.log, {CatOut, CatErr, CatExit}, exit)
    ensures exit.Finished? ==>
              && exit.result.streamedLineCount == streamedLineCount
              && ResultsRead(sandbox.decode, sandbox.stderr, sandbox.exitStatus, sandbox.log, sandbox.out, exit.result)
  {
    var out := sandbox.Exec(CatOut);
    if out.Threw? { return Failed(out.failure); }
    var err := sandbox.Exec(CatErr);
    if err.Threw? { return Failed(err.failure); }
    var code := sandbox.Exec(CatExit);
    if code.Threw? { return Failed(code.failure); }
    var exitCode := if code.ok && sandbox.exitStatus.Some? then sandbox.exitStatus.value else 1;
    var result := TurnResult(if out.ok then out.stdout else "", if err.ok then err.stdout else "",
                             exitCode, streamedLineCount);
    ThreeReplies(sandbox.decode, sandbox.stderr, sandbox.exitStatus, old(sandbox.log), out, err, code, sandbox.out, result);
    return Finished(result);
  }

  lemma ThreeReplies(decode: Decode, stderr: string, exitStatus: Option<int>, log: seq<Entry>,
                     out: Reply, err: Reply, code: Reply, output: seq<Byte>, result: TurnResult)
    requires out.Replied? && err.Replied? && code.Replied?
    requires (out.ok ==> out.stdout == Strip(decode(output))) && (err.ok ==> err.stdout == stderr)
    requires result.stdout == out.TextIfOk() && result.stderr == err.TextIfOk()
    requires result.exitCode == if code.ok && exitStatus.Some? then exitStatus.value else 1
    ensures var after := log + [Entry(CatOut, out)] + [Entry(CatErr, err)] + [Entry(CatExit, code)];
            ResultsRead(decode, stderr, exitStatus, after, output, result)
  {
  }

  /** The `finally` block; only a cancellation in it replaces the way the turn ended. */
  method CloseTurn(sandbox: Sandbox, finished: bool, ended: Exit) returns (exit: Exit, ghost closing: seq<Entry>)
    modifies sandbox
    ensures sandbox.Progress() && sandbox.log == old(sandbox.log) + closing && Closing(closing, finished)
    ensures exit == if Last(closing).reply == Threw(Cancelled) then Failed(Cancelled) else ended
  {
    exit, closing := ended, [];
    if !finished {
      var killed := sandbox.Exec(Kill);
      closing := [Entry(Kill, killed)];
      if killed.Threw? {
        return if killed.failure.Cancelled? then Failed(Cancelled) else ended, closing;
      }
    }
    var cleaned := sandbox.Exec(Cleanup);
    closing := closing + [Entry(Cleanup, cleaned)];
    if cleaned.Threw? && cleaned.failure.Cancelled? {
      exit := Failed(Cancelled);
    }
  }

  /** The run of a turn's poll loop, if the turn was launched: the one that the world holds for it. */
  ghost predicate TurnRan(run: Option<Run>, w: World, streaming: bool, writes: nat, timeoutSeconds: real, pollSeconds: real) {
    match Launched(w, writes)
    case None => run == None
    case Some(start) =>
      && run.Some? && run.value.Ok() && run.value.start == start && run.value.offset == 0
      && run.value.plan == Plan(streaming, start.clock + timeoutSeconds, pollSeconds)
  }

  /** The same, one command at a time. */
  ghost predicate RanAfter(run: Option<Run>, w: World, streaming: bool, writes: nat, timeoutSeconds: real, pollSeconds: real)
    decreases writes
  {
    if !Succeeds(w) then run == None
    else if writes > 0 then RanAfter(run, w.AfterExec(None), streaming, writes - 1, timeoutSeconds, pollSeconds)
    else TurnRan(run, w, streaming, 0, timeoutSeconds, pollSeconds)
  }

  lemma {:induction false} RanIsRanAfter(run: Option<Run>, w: World, streaming: bool, writes: nat,
                                         timeoutSeconds: real, pollSeconds: real)
    ensures RanAfter(run, w, streaming, writes, timeoutSeconds, pollSeconds)
       <==> TurnRan(run, w, streaming, writes, timeoutSeconds, pollSeconds)
    decreases writes
  {
    if Succeeds(w) && writes > 0 {
      RanIsRanAfter(run, w.AfterExec(None), streaming, writes - 1, timeoutSeconds, pollSeconds);
    }
  }

  lemma RanFrom(run: Run, w: World, launched: World, streaming: bool, writes: nat, timeoutSeconds: real, pollSeconds: real)
    requires Launched(w, writes) == Some(launched) && run.Ok() && run.start == launched && run.offset == 0
    requires run.plan == Plan(streaming, launched.clock + timeoutSeconds, pollSeconds)
    ensures RanAfter(Some(run), w, streaming, writes, timeoutSeconds, pollSeconds)
  {
    RanIsRanAfter(Some(run), w, streaming, writes, timeoutSeconds, pollSeconds);
  }

  /** A turn is finished exactly when its poll loop ended with DONE. */
  ghost predicate Finishes(run: Option<Run>) {
    run.Some? && run.value.verdict == Some(Done)
  }

  /** The polls of the run stand in the log after the commands that launched the turn. */
  ghost predicate Logged(before: seq<Entry>, log: seq<Entry>, writes: nat, run: Option<Run>) {
    var first := |before| + writes + 1;
    run.Some? ==> first + |run.value.Log()| <= |log| && log[first..first + |run.value.Log()|] == run.value.Log()
  }

  /** The text that the streamer has made of the reads of a turn. */
  ghost function TurnText(run: Option<Run>, decode: Decode): string {
    if run.Some? then run.value.Text(decode) else ""
  }

  /** What a turn has done before it is closed, and how it ended: `log` and `out` are the commands issued and
      the output by then.  The streamer's text is that of the reads of the run; it has read a prefix of the
      output, all of it if the last read was complete; a finished turn still holds the last line back and
      carries what was read of its results;
      a turn that ran out of time or died is reported so and has narrated every line, unless a command threw. */
  ghost predicate Worked<E, R>(decode: Decode, stderr: string, exitStatus: Option<int>, log: seq<Entry>, out: seq<Byte>,
                               streamer: NarrationStreamer<E, R>, streaming: bool, run: Option<Run>, ended: Exit)
    reads streamer
  {
    && streamer.Valid() && streamer.consumed <= out && streamer.text == TurnText(run, decode)
    && (Finishes(run) ==> streamer.Lagging() && out == run.value.end.out)
    && (Finishes(run) && CompleteRead(run.value.Log()) ==> streamer.consumed == out)
    && (ended.Finished? ==>
          && Finishes(run) && ended.result.streamedLineCount == streamer.streamedLineCount
          && ResultsRead(decode, stderr, exitStatus, log, out, ended.result))
    && (Finishes(run) ==> ended.Finished? || ThrewLast(log, {CatOut, CatErr, CatExit}, ended))
    && (run.Some? && !Finishes(run) ==> LeftWith(decode, log, out, streamer, streaming, run.value.verdict, ended))
    && (run.None? ==> ended.Failed?)
  }

  /** A launched turn: wait for it, and read its results if it finishes. */
  method PollAndRead<E, R>(sandbox: Sandbox, streamer: NarrationStreamer<E, R>, streaming: bool,
                           timeoutSeconds: real, pollSeconds: real)
    returns (ended: Exit, finished: bool, ghost run: Run)
    requires sandbox.base64.Sound() && Reading(sandbox, streamer) && streamer.byteOffset == 0 && streamer.text == ""
    modifies sandbox, streamer
    ensures sandbox.Progress() && finished == (run.verdict == Some(Done))
    ensures run.Ok() && run.start == old(sandbox.View()) && run.offset == 0
    ensures run.plan == Plan(streaming, old(sandbox.clock) + timeoutSeconds, pollSeconds)
    ensures Worked(sandbox.decode, sandbox.stderr, sandbox.exitStatus, sandbox.log, sandbox.out,
                   streamer, streaming, Some(run), ended)
    ensures finished ==> sandbox.exitFile
    ensures IssuedOnly(old(sandbox.log) + run.Log(), sandbox.log, AfterWait(finished))
  {
    var end;
    end, run := PollLoop(sandbox, streamer, streaming, timeoutSeconds, pollSeconds);
    ghost var left := sandbox.View();
    WaitEnds(run);
    LeadsOn(run.start, run.end, left);
    if end.Left? {
      return end.exit, false, run;
    }
    finished := true;
    ended := ReadFinished(sandbox, streamer, streaming, run);
    LeadsOn(run.start, left, sandbox.View());
  }

  /** Reading the results of a turn whose loop ended with DONE. */
  method ReadFinished<E, R>(sandbox: Sandbox, streamer: NarrationStreamer<E, R>, streaming: bool, ghost run: Run)
    returns (ended: Exit)
    requires streamer.Valid() && streamer.Lagging() && streamer.consumed <= sandbox.out
    requires streamer.text == run.Text(sandbox.decode) && run.at == streamer.byteOffset
    requires run.Ok() && run.offset == 0 && run.verdict == Some(Done) && run.end == sandbox.View()
    modifies sandbox
    ensures sandbox.Progress() && sandbox.exitFile && IssuedOnly(old(sandbox.log), sandbox.log, {CatOut, CatErr, CatExit})
    ensures Worked(sandbox.decode, sandbox.stderr, sandbox.exitStatus, sandbox.log, sandbox.out,
                   streamer, streaming, Some(run), ended)
  {
    WaitEnds(run);
    if CompleteRead(run.Log()) {
      CompleteReadIsWhole(run);
    }
    ended := ReadResults(sandbox, streamer.streamedLineCount);
  }

  lemma WorkLogged(before: seq<Entry>, launched: seq<Entry>, after: seq<Entry>, writes: nat, run: Run, finished: bool)
    requires IssuedOnly(before, launched, {WriteScratch, Launch}) && |launched| == |before| + writes + 1
    requires IssuedOnly(launched + run.Log(), after, AfterWait(finished))
    requires run.Ok() && run.offset <= |run.start.out|
    ensures IssuedOnly(before, after, WorkCommands(finished)) && Logged(before, after, writes, Some(run))
  {
    RunIssuesPolls(run);
    assert forall i | |before| <= i < |launched| :: after[i] == (launched + run.Log())[i] == launched[i];
    assert forall i | |launched| <= i < |launched + run.Log()| :: after[i] == run.Log()[i - |launched|];
  }

  /** The part after the launch; `w` is the world as the turn began. */
  method LaunchedBody<E, R>(sandbox: Sandbox, streamer: NarrationStreamer<E, R>, streaming: bool,
                            writes: nat, timeoutSeconds: real, pollSeconds: real, ghost w: World)
    returns (ended: Exit, finished: bool, ghost run: Run)
    requires sandbox.base64.Sound() && Reading(sandbox, streamer) && streamer.byteOffset == 0 && streamer.text == ""
    requires Launched(w, writes) == Some(sandbox.View())
    modifies sandbox, streamer
    ensures sandbox.Progress() && finished == (run.verdict == Some(Done))
    ensures finished ==> sandbox.exitFile
    ensures RanAfter(Some(run), w, streaming, writes, timeoutSeconds, pollSeconds)
    ensures Worked(sandbox.decode, sandbox.stderr, sandbox.exitStatus, sandbox.log, sandbox.out,
                   streamer, streaming, Some(run), ended)
    ensures IssuedOnly(old(sandbox.log) + run.Log(), sandbox.log, AfterWait(finished))
    ensures run.Ok() && run.offset == 0
  {
    ghost var launched := sandbox.View();
    ended, finished, run := PollAndRead(sandbox, streamer, streaming, timeoutSeconds, pollSeconds);
    RanFrom(run, w, launched, streaming, writes, timeoutSeconds, pollSeconds);
  }

  /** Everything `run_turn` does inside its `try`. */
  method TurnBody<E, R>(sandbox: Sandbox, streamer: NarrationStreamer<E, R>, streaming: bool,
                        writes: nat, timeoutSeconds: real, pollSeconds: real)
    returns (ended: Exit, finished: bool, ghost run: Option<Run>)
    requires sandbox.base64.Sound()
    requires streamer.Valid() && streamer.Lagging() && streamer.consumed == [] && streamer.text == ""
    requires streamer.decode == sandbox.decode
    modifies sandbox, streamer
    ensures sandbox.Progress()
    ensures RanAfter(run, old(sandbox.View()), streaming, writes, timeoutSeconds, pollSeconds)
    ensures finished <==> Finishes(run)
    ensures Worked(sandbox.decode, sandbox.stderr, sandbox.exitStatus, sandbox.log, sandbox.out,
                   streamer, streaming, run, ended)
    ensures finished ==> sandbox.exitFile
    ensures IssuedOnly(old(sandbox.log), sandbox.log, WorkCommands(finished))
    ensures Logged(old(sandbox.log), sandbox.log, writes, run)
  {
    ghost var w := sandbox.View();
    var failed := WriteAndLaunch(sandbox, writes);
    if failed.Some? {
      RanIsRanAfter(None, w, streaming, writes, timeoutSeconds, pollSeconds);
      return Failed(failed.value), false, None;
    }
    ghost var log := sandbox.log;
    ghost var ran;
    ended, finished, ran := LaunchedBody(sandbox, streamer, streaming, writes, timeoutSeconds, pollSeconds, w);
    run := Some(ran);
    WorkLogged(old(sandbox.log), log, sandbox.log, writes, ran, finished);
  }

  function AfterWait(finished: bool): set<Command> {
    if finished then {CatOut, CatErr, CatExit} else {Kill, Head}
  }

  function WorkCommands(finished: bool): set<Command> {
    if finished then {WriteScratch, Launch, Command.Poll, CatOut, CatErr, CatExit}
    else {WriteScratch, Launch, Command.Poll, Kill, Head}
  }

  /** `run_turn`.  On every way out the commands issued are the turn's work and then the closing ones: an
      unfinished turn is killed before cleanup, a finished turn is never killed, nothing follows cleanup.
      `run` is the run of its poll loop, if it was launched; the world determines it.  Only a cancellation of the
      closing commands replaces the way the work `ended`. */
  method RunTurn<E, R>(sandbox: Sandbox, loads: Loads<E>, classify: Classify<E, R>, streaming: bool,
                       writes: nat, timeoutSeconds: real, pollSeconds: real)
    returns (exit: Exit, streamer: NarrationStreamer<E, R>, ghost run: Option<Run>,
             ghost worked: seq<Entry>, ghost closing: seq<Entry>, ghost ended: Exit)
    requires sandbox.base64.Sound()
    modifies sandbox
    ensures fresh(streamer) && streamer.loads == loads && streamer.classify == classify
    ensures TurnRan(run, old(sandbox.View()), streaming, writes, timeoutSeconds, pollSeconds)
    ensures IssuedOnly(old(sandbox.log), worked, WorkCommands(Finishes(run))) && Logged(old(sandbox.log), worked, writes, run)
    ensures sandbox.log == worked + closing && Closing(closing, Finishes(run))
    ensures exists out | out <= sandbox.out && (Finishes(run) ==> out == sandbox.out && sandbox.exitFile) ::
              Worked(sandbox.decode, sandbox.stderr, sandbox.exitStatus, worked, out, streamer, streaming, run, ended)
    ensures exit == if Last(closing).reply == Threw(Cancelled) then Failed(Cancelled) else ended
  {
    streamer := new NarrationStreamer(loads, sandbox.decode, classify);
    var left, finished;
    left, finished, run := TurnBody(sandbox, streamer, streaming, writes, timeoutSeconds, pollSeconds);
    RanIsRanAfter(run, old(sandbox.View()), streaming, writes, timeoutSeconds, pollSeconds);
    worked, ended := sandbox.log, left;
    ghost var out := sandbox.out;
    exit, closing := CloseTurn(sandbox, finished, left);
    assert Worked(sandbox.decode, sandbox.stderr, sandbox.exitStatus, worked, out, streamer, streaming, run, ended);
  }
}
