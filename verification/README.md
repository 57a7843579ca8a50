# Verification of the agent's turn runner and its neighbours

This project models the stateful core of the delivery agent under `agent/` and proves what that core is
relied on for. `dafny verify dfyconfig.toml` checks everything. The modules, hardest first:

- **Narration, Utf8, Jsonl, PollFraming, HandOver, Repeats, TurnDelivery, LateExit, ClaudeEvents, ClaudeTurn,
  CopilotTurn** - a CLI turn
  writes JSONL to a file. While it runs, capped tail reads are cut into lines and each line's events are narrated one line late; when it
  ends, the whole output is parsed again and only `events[streamed_line_count:-1]` is translated. The
  proofs relate the incremental form to the batch form and say exactly when nothing is lost and when nothing
  can be delivered twice. HandOver is generic in the parser and the classifier; the two turn modules
  instantiate it for each chat model. What was heard live is the text of the reads of the run of the poll
  loop (`WaitLoop.Run.Text`), so every claim about a turn is one about its run and its output file.
- **SandboxExec, WaitLoop, TurnRunner** - `run_turn` against an adversarial sandbox. The world is an arbitrary
  script of what happens during each exec: output before and after the tail read, the exit file before or
  after it, a dead process, failures, time-outs, cancellation. A streaming poll is three steps in the order
  of the shell command: wait, tail read, status check. A run of the poll loop is a list of rounds that the
  world determines (`WaitLoop.RunUnique`); the methods go through that run and log its polls, and time
  bound, catch-up bound and termination are theorems about every run.
- **ResumeCache, ResumeProtocol, ResumeLaws** - the session cache and its use by both chat models, over every
  interleaving of turns, evictions and closings.
- **RunActivity, SingleDriver** - the registries behind a running graph and the protocol that lets one task
  drive a thread while any number of requests subscribe. Control changes hands only at an await.
- **ProviderCache** - the time-limited cache of the active provider with concurrent fetches, saves and
  invalidations.
- **FullRead, Approvals, Settings, AcEval, ConfigInventory** - smaller algorithms with exact specifications:
  interval coverage, the approvals table, setting parsers and formatters, attribution of test outcomes to
  criteria, path flattening and inventory merging.
- **Text** - Python's `strip`, `split`, `splitlines`, `join` and ASCII `lower`.

Source objects that change state are classes whose methods are tied to functions on a value (`View()`,
`Seen()`); source loops are methods proved against a specification function; runs and interleavings are
folds of a step function. Two things of the standard library are parameters with stated laws: the base64
codec (`SandboxExec.Base64.Sound`) and Python's digits and sort order (`Settings.Python.Sound`). The JSON
parser, the UTF-8 decoder and the naming of criteria in test names are arbitrary functions; where the texts of
several reads have to add up, the decoder undoes an encoding that no read cuts inside a character
(`Narration.WholeCharacters`), as UTF-8 is one (`Utf8.Utf8Encodes`).

## Where the code does less than its documentation says

The model follows the code. Each of these is proved.

- **The hand-over can lose one line.** `agent/src/claude_chat_model.py:931-936` calls the slice a no-op in the
  normal case. Where the two readers agree, and with `n` batch events and `k` streamed lines, the indices
  handed on are all but `n - 1` and `k - 1`: if `0 < k < n`, line `k - 1` was held back by the streamer and
  is skipped by the slice. The last line has no newline in `HandOver.UnterminatedLastLineExample`; in
  `LateExit.LateExitLosesLine` every line has one, but the exit file appears between the tail read and the
  status check of the last poll (`HandOver.AtMostOnce`, `HandOver.DeliveredLines`,
  `HandOver.HandOverComplete`, `TurnDelivery.TurnSettles`).
- **The hand-over can deliver a line twice**, or a line the batch does not list, when a complete line other than
  the last one has another line break inside: the batch makes two lines of it, so `k` no longer counts the
  same lines. This is ruled out for every parser exactly when there is no such line
  (`Repeats.NeverMoreThanBatch`, `Repeats.LineTwiceExample`).
- **A crashed Copilot turn does lose visibility**, against `agent/src/copilot_chat_model.py:957-958`: the slice
  is translated before the exit code is looked at, but it leaves out the last line, which in a crashed turn
  is no terminal line. Compared with all lines nothing is missing if and only if the hand-over loses
  nothing and that last line has nothing to narrate (`TurnDelivery.TurnSettles`, `CopilotTurn.NarrateTurn`); `CopilotTurn.CrashedTurnExample`
  is an output of one tool call that is read and never delivered.
- **The two readers split lines differently.** The live reader splits at "\n", the batch reader with
  `splitlines()`, which also breaks at U+2028, U+0085 and others that JSON allows inside a string.
  They agree on every output exactly when no "\n"-line has text on both sides of another break
  (`Jsonl.ReadersAgree`, `Jsonl.ReadersDiffer`, `Jsonl.LineSeparatorExample`).
- **A verdict can describe an id that is no longer cached**, against
  `agent/src/cli_agent_exec.py:273-279`, if turns on one key overlap: "unknown" about `x` may be recorded
  while a concurrent turn has cached `y`. `ResumeProtocol.EndKeepsLabel` gives the exact condition,
  `ResumeProtocol.SequentialLabels` the runs without overlap, `ResumeProtocol.OverlapMislabels` an example.
  What does hold in every interleaving is about "resumed" and "rejected" (`ResumeProtocol.InvAlways`).
- **An eviction during a turn is undone by that turn**: its id is cached again when the turn returns it
  (`ResumeProtocol.EvictionDuringTurn`).
- **Invalidating the provider cache does not close the window** of `agent/src/chat_model.py:423-431`. After a save
  and an invalidation some call can return another provider exactly when a fetch that already read another
  row is still awaiting, or when a failing read would fall back to an environment provider other than the
  saved one (`ProviderCache.InvalidationClosesTheWindow`; `ProviderCache.WrongAnswers` says which calls).
  Hits return the stale provider for less than the time limit after the late write-back
  (`ProviderCache.StaleHitsAreBounded`), but a failing read returns it after any time, because an expired
  entry stays in the cache (`ProviderCache.StaleFallBackIsNot`).
- **A driver whose `pin_for_session` fails, or that is cancelled before it, never sends DONE**, so its
  subscribers wait (`SingleDriver.DoneIffPastPin`).
- **The Settings API's round-trip check compares texts, not values**, so it stores `[""]` and elements with
  inner commas, which read back as other lists or sets (`Settings.PutOfCsv`, `Settings.PutOfFrozenset`).
- **An unreadable APPROVALS.md is overwritten**, because reading it and finding none look the same: an approval
  keeps the old rows if and only if the file could be read or had none (`Approvals.ApprovalKeepsRows`,
  `Approvals.UnreadableFileIsReplaced`).

## Model

| member | source | states |
|---|---|---|
| Narration.NarrationStreamer.ConsumeTail | agent/src/cli_agent_exec.py:513-541 | for any cut of the output into reads, the text grows by what the new bytes decode to, the lines given to the parser are the newline-terminated ones of everything read, each accepted line is counted once and narrated once in order, and exactly the most recent one is held back |
| Narration.NarrationStreamer.FlushPending | agent/src/cli_agent_exec.py:499-511 | the held-back events, and only they, are appended to what was emitted, and nothing is held back any more |
| Narration.NarrationStreamer.constructor | agent/src/cli_agent_exec.py:483-497 | a fresh streamer has read, counted and emitted nothing |
| Narration.SeenAfter | agent/src/cli_agent_exec.py:523-528 | reading another chunk accepts exactly the lines that the chunk completes and keeps the open rest |
| Narration.WholeCharacterReads | agent/src/cli_agent_exec.py:521-523 | reads that cut the file between characters decode to the text of the bytes read, which the text of the file starts with |
| Utf8.Utf8Encodes | agent/src/cli_agent_exec.py:517-523 | UTF-8 has what that needs: it encodes character by character and no text's code is the start of another's unless the text is |
| Utf8.SplitCharacterExample | agent/src/cli_agent_exec.py:517-523 | a character cut by a read comes out as two replacement characters, so the condition is needed |
| Jsonl.ParseOutput | agent/src/claude_chat_model.py:306-329 | the batch parser yields the accepted events of all `splitlines()` lines, in order |
| Jsonl.BatchIgnoresOuterSpace | agent/src/sandbox/local_docker.py:136-139 | parsing the stripped copy that the sandbox hands back gives the same events as parsing the file |
| Jsonl.ReadersAgree | agent/src/claude_chat_model.py:324-329 | the live and the batch reader offer the same lines to the JSON parser if and only if no newline-terminated line has text on both sides of another line break |
| Jsonl.StreamIsPrefixOfBatch | agent/src/cli_agent_exec.py:513-541 | under that condition, at any point of the output, the accepted lines of the stream are a prefix of the batch list, and the rest is what the batch makes of the open line and the unread text |
| Jsonl.ReadersDiffer | agent/src/claude_chat_model.py:324-329 | where the condition fails, some acceptance rule makes the batch list longer than anything the stream can accept |
| Jsonl.LineSeparatorExample | agent/src/claude_chat_model.py:324-329 | a JSON line with a raw U+2028 inside a string violates the condition |
| PollFraming.FramedRoundTrip | agent/src/cli_agent_exec.py:101-122 | payload and status word are recovered from the framed, stripped output if and only if the payload is not the end marker itself, whatever else it contains |
| PollFraming.UnframedFallback | agent/src/cli_agent_exec.py:101-122 | without an end marker after a start marker: no payload, and the last non-blank line as status |
| SandboxExec.Sandbox.PollOnce | agent/src/cli_agent_exec.py:683-697 | one completion wait: the new bytes of a poll are the tail read before the status is checked, undamaged exactly when the world makes the poll come back in time and whole; otherwise none; the poll is logged with that, its offset, and whether the exit file was there before it and at the read |
| SandboxExec.Sandbox.Exec | agent/src/sandbox/local_docker.py:136-140 | every other command: the reply is determined by the world, text comes back stripped, and the command is logged with its reply |
| WaitLoop.RunUnique | agent/src/cli_agent_exec.py:622-741 | in a given world the poll loop has exactly one run: its rounds, its end and its verdict are determined |
| WaitLoop.WaitEnds | agent/src/cli_agent_exec.py:622-741 | every run ends within the timeout plus 30 seconds; the output only grew, the offset stayed inside it, DONE was seen only with the exit file there and DEAD only without it |
| WaitLoop.RoundVerdicts | agent/src/cli_agent_exec.py:622-741 | in every run, in terms of the world alone: a poll that comes back and finds the process gone without an exit file ends the run with DEAD, one that finds the exit file and does not hit the read cap ends it with DONE, one that throws ends it with what it throws, and any other poll goes on; each of these exactly then |
| WaitLoop.RoundBytes | agent/src/cli_agent_exec.py:685-706 | a poll reads the output from its offset on, up to the cap, as it stands at the tail read, and nothing unless it comes back whole |
| WaitLoop.CompleteReadIsWhole | agent/src/cli_agent_exec.py:698-729 | a DONE whose last read came undamaged after the exit file leaves nothing unread |
| WaitLoop.RunReads | agent/src/cli_agent_exec.py:685-706 | the reads of a run are one stretch of the output without gap or overlap, from its first offset up to its last |
| WaitLoop.RunText | agent/src/cli_agent_exec.py:513-523 | if no read cuts a character, the text heard over a run is that of the bytes read, and the whole output's once everything was read |
| WaitLoop.CatchUpBound | agent/src/cli_agent_exec.py:698-729 | from any logged poll on that began with the exit file, the undamaged polls in the log are at most unread / cap + 1, where unread is the final output from that poll's offset on |
| WaitLoop.PollsForIs | agent/src/cli_agent_exec.py:698-705 | the polls counted as "full caps that fit, and one more" are unread / cap + 1 |
| WaitLoop.ReturnsDone | agent/src/cli_agent_exec.py:622-741 | while polls start in time, come back undamaged within 30 seconds and find nobody dead who has not exited by then, a process that exits within k polls ends the loop with DONE, after at most k + unread / cap + 1 polls |
| WaitLoop.ReturnsDoneQuietly | agent/src/cli_agent_exec.py:622-741 | without narration the loop then ends with DONE by the poll that finds the exit file |
| WaitLoop.CatchesUp | agent/src/cli_agent_exec.py:698-729 | with the exit file there from the start, unread / cap + 1 such polls are enough, and the whole output has been read |
| TurnRunner.WaitOnce | agent/src/cli_agent_exec.py:660-731 | one iteration is the round that the world holds next: same sighting, same world afterwards, and the streamer is fed exactly that round's bytes |
| TurnRunner.WaitForExit | agent/src/cli_agent_exec.py:622-741 | the loop goes through exactly the run that the world holds, and logs its polls and nothing else; the streamer's text grows by the text of the run's reads, and it holds one line back |
| TurnRunner.LeaveLoop | agent/src/cli_agent_exec.py:622-641 | nothing is issued after DONE; a timeout ends in TurnTimeout and DEAD in TurnCrashed unless the kill or the last read threw, and either narrates every accepted line and reports the head of the output |
| TurnRunner.PollLoop | agent/src/cli_agent_exec.py:622-741 | the run of the loop with its ways out: DONE exactly when the run ended so, TurnTimeout only out of time, TurnCrashed only on DEAD, and then every line of the text of the run has been narrated |
| TurnRunner.WriteAndLaunch | agent/src/cli_agent_exec.py:608-618 | success exactly when every write and the launch come back with exit code 0, issued in that order; the first that does not is the last one issued, and its failure is reported |
| TurnRunner.GiveUp | agent/src/cli_agent_exec.py:627-641 | on timeout the group is killed, every complete line read so far has been narrated exactly once, and the partial output is the head of the output, or empty if it could not be read |
| TurnRunner.ReportCrash | agent/src/cli_agent_exec.py:712-723 | on DEAD the same without a kill |
| TurnRunner.ReadResults | agent/src/cli_agent_exec.py:743-791 | a finished result carries the streamed line count, the stripped text of the whole output, the error output and the exit code, each with its default when that read fails |
| TurnRunner.PollAndRead | agent/src/cli_agent_exec.py:619-791 | a launched turn is finished exactly when its run ended with DONE, and only then are results read; the lines counted and narrated are those of the text of the run |
| TurnRunner.CloseTurn | agent/src/cli_agent_exec.py:793-811 | the finally block: an unfinished turn is killed first, a finished one is not; cleanup comes last unless that kill raises; only a cancellation in it replaces the way the turn ended |
| TurnRunner.RunTurn | agent/src/cli_agent_exec.py:544-811 | on every exit: the turn's work, with the polls of the one run the world holds, then the closing commands; a turn is finished exactly when that run ended with DONE, and then it is never killed and still holds the last line back; a run that ended with DEAD gives TurnCrashed and one out of time TurnTimeout, unless a command issued afterwards threw; the text narrated from is that of the run's reads; the output was consumed whole if the last read was complete; a timed-out or crashed turn has narrated all complete lines of that text and reports the head of its output |
| ClaudeEvents.ClassifyOneEvent | agent/src/claude_chat_model.py:335-427 | the loop over a line's blocks yields the block events, in order |
| ClaudeEvents.CorrelateResults | agent/src/claude_chat_model.py:488-507 | the first pass over all lines and blocks builds the lookup of the batch's results, in order of appearance |
| ClaudeEvents.LookupHasLast | agent/src/claude_chat_model.py:488-507 | the lookup has an id if and only if the batch holds a result for it, and then the last one |
| ClaudeEvents.TranslateIntermediateEvents | agent/src/claude_chat_model.py:430-515 | one event for every tool call and every thinking or text block that says something, in order of line and block; a tool call has its block's name and input, and content, error flag and line timestamp of the last tool_result block of the whole batch with its id, and no result exactly when there is none; a reasoning event has its kind, its text and a head of it |
| ClaudeEvents.LookupOfBatch | agent/src/claude_chat_model.py:488-507 | the lookup of a batch has an id if and only if some block of some line is a tool_result for it, and then holds the last such block's fields |
| ClaudeEvents.PositionsAre | agent/src/claude_chat_model.py:335-427 | the positions of the blocks that satisfy a condition: all of them, strictly in order of line and block |
| ClaudeEvents.BlocksOfLine | agent/src/claude_chat_model.py:368-376 | the blocks of a line are the list under "content" of the object under "message" |
| ClaudeEvents.Falsy | agent/src/claude_chat_model.py:401 | the values for which a fallback is taken: null, false, zero and the empty string, list and object |
| ClaudeEvents.BatchIsLive | agent/src/claude_chat_model.py:335-515 | with result fields erased, batch translation equals the concatenated live classification of the single lines, whatever the lookup, so it distributes over any split |
| HandOver.AtMostOnce | agent/src/claude_chat_model.py:937-947 | the indices handed on are strictly increasing and, in the batch list, exactly those other than the terminal line and the line held back at the slice's start |
| HandOver.DeliveredLines | agent/src/claude_chat_model.py:937-947 | for every parser and classifier, what is delivered is the narration of the batch lines with those indices, provided all complete lines but the last are single lines to the batch |
| Repeats.NeverMoreThanBatch | agent/src/claude_chat_model.py:937-947 | no parser can have a line delivered more often than the batch lists it, if and only if all non-blank complete lines but the last are free of other line breaks |
| Repeats.LineTwiceExample | agent/src/claude_chat_model.py:937-947 | an output with another line break in its first line, of which the second line is delivered twice |
| HandOver.HandOverComplete | agent/src/claude_chat_model.py:937-947 | the delivered events are those of every non-terminal line if and only if nothing was streamed, nothing was left unread, or the held-back line has no events; otherwise exactly that line is missing |
| HandOver.CaughtUpLosesNothing | agent/src/claude_chat_model.py:937-947 | nothing is lost when the whole output was consumed and its last line is terminated |
| HandOver.UnterminatedLastLineExample | agent/src/claude_chat_model.py:937-947 | two lines of which the second lacks its newline: the first is not delivered |
| HandOver.EndOfTurn | agent/src/claude_chat_model.py:824-947 | for a finished turn, emitted events plus the slice of the re-read, stripped output are that delivery, with the same condition for completeness |
| TurnDelivery.TurnSettles | agent/src/claude_chat_model.py:824-947 | for the run of any finished turn whose reads were whole characters, all but the terminal line is delivered if and only if the hand-over loses nothing, and all lines if and only if the terminal one also has nothing to narrate; nothing is lost when the last read was complete and the output ends with its last line |
| LateExit.LateExitLosesLine | agent/src/cli_agent_exec.py:683-729 | a run of two undamaged polls, the second of which reads the tail before the last line and the exit file appear: it ends with DONE, and the first line is held back and never delivered |
| ClaudeTurn.TranslateRest | agent/src/claude_chat_model.py:822-947 | the slice is translated, with its own lookup, only after a turn with a terminal line, exit code 0 and no reported error |
| ClaudeTurn.NarrateTurn | agent/src/claude_chat_model.py:636-960 | the whole turn, from launch to slice, in every world, with the text of the one run that the world holds: after success the delivery with the exact condition for completeness, and no loss after a complete last read of an output that ends with its last line; otherwise all complete lines but the last, or, timed out or crashed, all complete lines |
| CopilotTurn.ToolLines | agent/src/copilot_chat_model.py:209-262 | a line becomes a tool call if and only if its type is "tool" or starts with "tool."; its name is the first of data.name, data.toolName, data.tool_name and the rest of the type that is not falsy, else "unknown", and the line's data is kept |
| CopilotTurn.NarratedLines | agent/src/copilot_chat_model.py:245-262 | a line is narrated if and only if it is a message delta whose "text", or, if that is falsy, "content", is a non-empty string, which the event carries whole and in a head of 160 characters |
| CopilotTurn.TimestampKept | agent/src/copilot_chat_model.py:209-262 | every event has its line's timestamp, if there is one |
| CopilotTurn.TranslateIntermediateEvents | agent/src/copilot_chat_model.py:286-344 | a batch translates to what the live path would have narrated, line by line |
| CopilotTurn.NarrateTurn | agent/src/copilot_chat_model.py:863-967 | the whole Copilot turn, likewise: whenever the output has a line, the delivery with the exact conditions for its being all lines but the last (a turn that succeeded) and all lines (one that crashed) |
| CopilotTurn.CrashedTurnExample | agent/src/copilot_chat_model.py:938-967 | an output whose only line, a tool call, is read live and never delivered |
| ResumeCache.Classify | agent/src/cli_agent_exec.py:174-217 | no verdict without a requested id; "resumed" exactly for the same id without error, "rejected" exactly on an error that names a rejection |
| ResumeCache.MarkerIsFound | agent/src/cli_agent_exec.py:211-230 | a rejection marker is found anywhere in the text, in any case of ASCII letters |
| ResumeCache.DeadIdIsNamed | agent/src/cli_agent_exec.py:227-233 | "No conversation found" is a rejection, in that case too |
| ResumeCache.SessionCache.RecordResumeState | agent/src/cli_agent_exec.py:259-267 | the verdict is recorded, and a rejection also drops the cached id |
| ResumeCache.SessionCache.CacheSessionId | agent/src/cli_agent_exec.py:269-283 | the id is cached and any verdict but "resumed" is dropped |
| ResumeCache.SessionCache.ForgetThreadSessions | agent/src/cli_agent_exec.py:285-296 | the loop removes id and verdict of exactly the keys with a cached id and the thread's prefix |
| ResumeCache.SessionCache.CloseSession | agent/src/cli_agent_exec.py:298-304 | id and verdict of one key are removed |
| ResumeCache.SessionKeyInjective | agent/src/cli_agent_exec.py:236-240 | with colon-free components two keys are equal only if all three components are |
| ResumeCache.PrefixIsThread | agent/src/cli_agent_exec.py:285-288 | the prefix test finds exactly the thread's own keys |
| ResumeCache.EvictionFrame | agent/src/cli_agent_exec.py:285-296 | eviction removes every cached id of the thread and changes nothing of another thread; the thread's verdicts that stay are those without a cached id |
| ResumeProtocol.InitSessionId | agent/src/claude_chat_model.py:296-303 | the id of the first init line that has one, never empty |
| ResumeProtocol.ParseCopilotOutput | agent/src/copilot_chat_model.py:140-176 | the accepted events and the last session id seen, `sessionId` before `session_id` |
| ResumeProtocol.FinishTurn | agent/src/claude_chat_model.py:783-917 | the handlers of timeout, crash, missing output, error answer and success leave the cache that the turn's end determines |
| ResumeProtocol.FinishKilled | agent/src/claude_chat_model.py:783-815 | the timeout handler: "unknown" for the requested id, or for the one in the partial output of a first Claude turn, which is cached |
| ResumeProtocol.FinishAnswer | agent/src/copilot_chat_model.py:873-1009 | the same for a turn that came back, for both providers |
| ResumeProtocol.InvAlways | agent/src/cli_agent_exec.py:259-283 | in every interleaving of turns, evictions and closings: a "resumed" verdict is about the id that is cached, a "rejected" one about an id that is not |
| ResumeLaws.TurnEndLeaves | agent/src/claude_chat_model.py:783-917 | in every interleaving, id and verdict that the end of a turn leaves on its key, case by case |
| ResumeLaws.RejectedStartsFresh | agent/src/cli_agent_exec.py:211-217 | an error or a failed turn that names a rejection of the resumed id records "rejected", and the next turn on the key requests nothing |
| ResumeLaws.ConfirmedIsResumed | agent/src/cli_agent_exec.py:211-217 | an answer without error under the resumed id records "resumed" about it, and it is the cached id |
| ResumeLaws.NextTurnRequests | agent/src/claude_chat_model.py:644-655 | a turn requests exactly the non-empty id that is cached as it starts |
| ResumeLaws.ClosedStartsFresh | agent/src/cli_agent_exec.py:298-304 | after a closing the next turn on that key requests nothing, and other keys are as before |
| ResumeLaws.AnswerRead | agent/src/claude_chat_model.py:822-917 | a turn that came back is an answer if and only if it has a line and exit code 0; error flag and text are those of its last line, the session is the one named there (Claude) or last named on any line (Copilot) |
| ResumeLaws.KilledRead | agent/src/claude_chat_model.py:783-815 | a timed-out or dead turn is read for its init id, a time-out elsewhere for none, and other failures leave the cache alone |
| ResumeLaws.FirstInitIs | agent/src/claude_chat_model.py:296-303 | the init id is that of the first line that names one |
| ResumeLaws.LastSessionIdIs | agent/src/copilot_chat_model.py:140-176 | Copilot's session is the one on the last line that names one, `sessionId` before `session_id` |
| ResumeProtocol.CachedIdWasNamed | agent/src/claude_chat_model.py:871-917 | an id that is cached now and was not at some earlier step was named by a CLI in between |
| ResumeProtocol.RejectedIdNeedsNaming | agent/src/claude_chat_model.py:644-655 | after a rejection no turn on that key requests the id again unless the CLI names it anew |
| ResumeProtocol.EvictedIdNeedsNaming | agent/src/cli_agent_exec.py:285-296 | an evicted id comes back only if a CLI names it after the eviction |
| ResumeProtocol.EvictionDuringTurn | agent/src/claude_chat_model.py:905-917 | and it does come back if a turn was awaiting during the eviction |
| ResumeProtocol.InitIdIsFound | agent/src/claude_chat_model.py:296-303 | the id of an init line that is the first complete line of a text is found in the stripped copy of it |
| ResumeProtocol.KilledFirstTurn | agent/src/claude_chat_model.py:783-815 | in any interleaving, a timed-out or dead first turn whose output's head begins with an init line leaves that line's id cached with verdict "unknown" |
| ResumeProtocol.TakeTurn | agent/src/claude_chat_model.py:644-917 | a turn with its cache updates: that head is the head of what the turn had written when it was read, whenever it was read |
| ResumeProtocol.EndKeepsLabel | agent/src/cli_agent_exec.py:269-283 | a turn's end leaves verdict and cached id about the same id, if and only if it does not record "unknown" over a different id cached meanwhile |
| ResumeProtocol.SequentialLabels | agent/src/cli_agent_exec.py:269-283 | if turns do not overlap, a verdict always describes the cached id |
| ResumeProtocol.OverlapMislabels | agent/src/cli_agent_exec.py:269-283 | two overlapping turns after which it does not |
| SingleDriver.NextKeepsInv | agent/main.py:149-256 | every step between two awaits keeps: an unfinished driver is the registered task of its thread, counts are 1 exactly for drivers past their pin, queues are attached once and to their own thread |
| SingleDriver.InvAlways | agent/main.py:149-256 | so they hold after any number of steps |
| SingleDriver.OneDriverPerThread | agent/main.py:209-256 | in every interleaving there is at most one unfinished driver per thread, and its count is held exactly while it is past its pin |
| SingleDriver.IdleThreadHasNoCount | agent/main.py:167-194 | incr and decr balance: without a live driver a thread has no count |
| SingleDriver.JoinedReadsRunStartedFirst | agent/main.py:231-247 | the first item in the queue of a request that joins a live driver is RUN_STARTED, whatever is published meanwhile |
| SingleDriver.DoneInStep | agent/main.py:191-194 | while a driver is unfinished, only its finally block sends DONE to its thread's subscribers, and it sends it to all of them |
| SingleDriver.DoneIffPastPin | agent/main.py:167-194 | over a whole run up to the end of a driver, a subscriber that stays is sent DONE if and only if the driver got past `pin_for_session` |
| SingleDriver.FullLife | agent/main.py:149-247 | a request for an idle thread whose driver gets past its pin, publishes any items and ends: the request's queue has exactly these items and DONE, and the thread is idle again |
| SingleDriver.LeavingDetaches | agent/src/run_activity.py:233-244 | a request that leaves detaches its own queue, and no other |
| SingleDriver.SnapshotReachesOne | agent/main.py:240-247 | a reattached request's snapshot reaches its own queue only |
| SingleDriver.BeginRun | agent/main.py:209-247 | an attach-only request without a live driver changes nothing; one with a live driver joins it, starts no task and gets a queue that begins with RUN_STARTED; any other registers a new task for the thread and gets a new empty queue |
| SingleDriver.Resume | agent/src/run_activity.py:165-176 | a resume starts a driver exactly when none is live, no count is held and no other process beats; then a new task is registered for the thread, else nothing changes |
| SingleDriver.DriverFinally | agent/main.py:191-194 | the task popped is always the one that is ending; the thread's count and task are gone and every attached queue gets DONE |
| RunActivity.RunActivity.Incr | agent/src/run_activity.py:70-75 | the refcount of the lower-cased id goes up by one |
| RunActivity.RunActivity.Decr | agent/src/run_activity.py:76-81 | it goes down by one and disappears at zero |
| RunActivity.DecrUndoesIncr | agent/src/run_activity.py:70-81 | a decrement undoes an increment |
| RunActivity.KeyIgnoresCase | agent/src/run_activity.py:70-81 | two ids share a key if and only if they differ in the case of ASCII letters only |
| RunActivity.RunActivity.Publish | agent/src/run_activity.py:247-262 | the item is put once on every queue attached to the thread and on no other |
| RunActivity.RunActivity.Subscribe | agent/src/run_activity.py:179-187 | a new empty queue is attached to the thread |
| RunActivity.RunActivity.Unsubscribe | agent/src/run_activity.py:233-244 | that queue, and no other, is detached |
| RunActivity.RunActivity.PopTask | agent/src/run_activity.py:126-130 | the thread's registered task is removed and returned |
| RunActivity.RunActivity.CreateAndRegister | agent/main.py:233-235 | a new task is registered for the thread, with no await in between |
| ProviderCache.ProviderCache.CachedProviderIfFresh | agent/src/chat_model.py:137-148 | the cached provider while it is younger than the time limit, else none |
| ProviderCache.ProviderCache.FinishFetch | agent/src/chat_model.py:185-217 | a saved "claude" or "copilot", or without a row the environment's, is returned and cached; any other value is refused and leaves the cache; a failed read returns what is cached, however old, else the environment's |
| ProviderCache.ProviderCache.Invalidate | agent/src/chat_model.py:420-434 | the cache is empty afterwards |
| ProviderCache.HitWasTheSetting | agent/src/chat_model.py:162-217 | a cache hit returns what the setting was at some instant of a fetch that ended less than the time limit earlier |
| ProviderCache.WrongAnswers | agent/src/chat_model.py:185-217 | until the next save, exactly these calls return another provider than the saved one: an outdated fetch in flight its own row, a hit while a late write-back is fresh, a failing read while one is held or while nothing is cached and the environment differs |
| ProviderCache.HeldWrongIsLate | agent/src/chat_model.py:420-434 | another provider is cached if and only if an outdated fetch was written back and the cache has been left so |
| ProviderCache.InvalidationClosesTheWindow | agent/src/chat_model.py:420-434 | after a save and an invalidation some call can return another provider if and only if an outdated fetch is in flight or the environment's provider is another one |
| ProviderCache.LaterReadsReturnTheSaved | agent/src/chat_model.py:185-217 | with no such fetch every later read that reaches the database returns the saved provider, and so does the fall-back of a failing one once anything is cached |
| ProviderCache.SavedIsReturned | agent/src/chat_model.py:185-217 | after a save of one of the two providers and an invalidation, with no fetch in flight that has read another one, every hit and every read that reaches the database afterwards returns the saved provider until the next save |
| ProviderCache.StaleHitsAreBounded | agent/src/chat_model.py:137-217 | a hit returns the stale provider for less than the time limit after the late write-back |
| ProviderCache.StaleFallBackIsNot | agent/src/chat_model.py:193-199 | a failing read returns it after any wait |
| FullRead.CoversWholeFile | agent/src/full_read_checks.py:37-48 | true if and only if every line 1..n lies in some range, for all integer ranges, overlapping, empty or out of order |
| FullRead.ReadAfterSorting | agent/src/full_read_checks.py:37-48 | sorting changes nothing about which lines are read |
| FullRead.ReadFullFileReads | agent/src/claude_chat_model.py:1354-1390 | raises exactly when an assistant entry's message is neither falsy nor an object; otherwise true if and only if some assistant entry has a Read of the file and every line 1..n lies in one: from its positive offset, or 1, as many lines as its positive limit, or the window |
| FullRead.RangesAreCalls | agent/src/claude_chat_model.py:1361-1386 | a line is in some range of a transcript if and only if some Read call on the file reads it |
| FullRead.SamePathIs | agent/src/claude_chat_model.py:1379-1380 | a path matches if and only if it is the target or ends in a slash and the target |
| FullRead.NormalizedIs | agent/src/claude_chat_model.py:1357-1378 | backslashes become slashes and the leading slashes go, and nothing else changes |
| FullRead.LongerTranscript | agent/src/claude_chat_model.py:1354-1390 | extending a transcript keeps every range, so it never takes a proof away |
| Approvals.ParseRows | agent/src/approvals.py:45-55 | the records of the data rows with four cells, in order |
| Approvals.RecordApproval | agent/src/approvals.py:58-79 | parsing the written file gives the rows that were read followed by the record if and only if its fields are trimmed and free of bars and line breaks and its stage does not start with "Stage", for any text read and any header |
| Approvals.RowRoundTrip | agent/src/approvals.py:45-71 | a row gives back its record under exactly that condition |
| Approvals.ColumnsInOrder | agent/src/approvals.py:45-71 | a row is stage, run id, hash and time in that order, written and read |
| Approvals.HeaderHasNoRows | agent/src/approvals.py:20-29 | a new file starts with no rows, for any header of the source's shape |
| Approvals.ApprovalKeepsRows | agent/src/approvals.py:66-79 | an approval leaves the old rows followed by the new one if and only if the file could be read or had none |
| Approvals.HistoryKept | agent/src/approvals.py:58-79 | after any run of approvals, each reading the stripped file or failing to, a reader finds exactly the records since the last failed read, after the old rows if there was none |
| Approvals.AllSurvive | agent/src/approvals.py:58-79 | with every read successful these are the old rows and all records in order |
| Approvals.LatestApproval | agent/src/approvals.py:82-87 | the last row of the stage; none exactly when there is no file or no row of the stage |
| Approvals.LatestAfterRun | agent/src/approvals.py:82-87 | with every read successful the latest approval of a stage is the last one recorded for it, else the one the old file had |
| Approvals.LatestIsLastRecorded | agent/src/approvals.py:82-87 | an approval that no later one of its stage follows is the latest |
| Approvals.UnreadableFileIsReplaced | agent/src/approvals.py:66-79 | a file with one approval that cannot be read at the next one: only the new one is left |
| Settings.FormatThenParse | agent/src/config.py:64-92 | parse(format(v)) is v if and only if every element of a csv or frozenset value is non-empty, trimmed and comma-free, and always for int, bool, str and csv_int |
| Settings.ParseFormatParse | agent/src/config.py:64-92 | parse(format(parse(s))) is parse(s) for every text that parses |
| Settings.CsvRoundTrip | agent/src/config.py:64-92 | the csv case on its own |
| Settings.IntRoundTrip | agent/src/config.py:64-92 | `int(str(n)) == n` with sign, digits and underscores as `int` reads them |
| Settings.BadOverrideActsAsUnset | agent/src/config.py:1041-1059 | an override that cannot be read or parsed gives what an unset one gives; one that parses decides |
| Settings.UnsetReads | agent/src/config.py:1041-1059 | without an override the environment variable decides, and without that the default |
| Settings.OffWords | agent/src/config.py:64-75 | a bool setting is off if and only if its stripped text is empty or 0, false, no or off in any case |
| Settings.SpelledInts | agent/src/config.py:64-75 | space and a plus sign around a number do not matter |
| Settings.Underscored | agent/src/config.py:64-75 | nor does an underscore between two digits |
| Settings.DigitsAreSpelled | agent/src/config.py:64-75 | a number is digits with single underscores between them, and nothing else is one |
| Settings.AllParse | agent/src/config.py:64-75 | a list of numbers parses exactly when every field does |
| Settings.StoredReadsBack | agent/src/sessions_api.py:2345-2362 | a faithful value is accepted, and the setting then reads as that value in every environment |
| Settings.PutOfCsv | agent/src/sessions_api.py:2352-2362 | which csv lists the API stores, and exactly which of those read back as another list |
| Settings.PutOfFrozenset | agent/src/sessions_api.py:2352-2362 | which lists a frozenset setting is stored from, in terms of their items, and exactly which of those read back as another set |
| Settings.DuplicatesAreRefused | agent/src/sessions_api.py:2352-2362 | a list that is stored has no duplicates |
| AcEval.AttributeOutcomes | agent/src/ac_eval.py:86-107 | a criterion is marked if and only if it is known and some test names it, "fail" if and only if one of those failed |
| AcEval.OrderFree | agent/src/ac_eval.py:86-107 | only which tests ran matters, not their order |
| AcEval.FailAbsorbs | agent/src/ac_eval.py:86-107 | more tests never turn "fail" into "pass" nor unmark a criterion |
| AcEval.ExecutionSummary | agent/src/ac_eval.py:110-177 | the loops compute the row of every criterion from the tests, the counts, the flaky ones and the last attempt's pass rate |
| AcEval.MakeRow | agent/src/ac_eval.py:122-149 | one criterion's runs, passes, flake flag, status and test names from the marks of the attempts that reported it |
| AcEval.PassMeansNoFailure | agent/src/ac_eval.py:122-149 | a criterion is "not_run" if and only if no test names it, and passes if and only if some does and every recorded test name passed in every attempt that reported it |
| AcEval.FlakyMeansBoth | agent/src/ac_eval.py:129-151 | flaky if and only if failing and passed in some attempt, so flaky criteria are among the failing |
| AcEval.CountsAddUp | agent/src/ac_eval.py:119-135 | passing + failing + not_run is the number of criteria |
| AcEval.SummaryMeans | agent/src/ac_eval.py:110-177 | the summary counts as failing the criteria that some failing test of some attempt names, as passing the other ones that some test names, as not run the rest; and the passed tests of the last attempt |
| AcEval.RowsMean | agent/src/ac_eval.py:110-177 | each row has its attempts and passes counted, and a criterion is flaky if and only if some test that names it failed and some attempt passed it |
| AcEval.RunsAre | agent/src/ac_eval.py:122-149 | a row counts the attempts that reported its criterion and those that passed it |
| AcEval.MoreAttempts | agent/src/ac_eval.py:122-149 | further attempts never repair a failing criterion nor steady a flaky one |
| ConfigInventory.FlattenAppsettings | agent/src/config_inventory.py:52-67 | the recursive loop computes the flattening of every value and prefix |
| ConfigInventory.LeafPathsAreExact | agent/src/config_inventory.py:52-67 | the key paths listed are exactly those that lead to a leaf |
| ConfigInventory.FlatIsLeafPaths | agent/src/config_inventory.py:47-67 | the result is the joined leaf paths outside the skipped roots, in document order, if and only if no root member with an empty key has members of its own |
| ConfigInventory.SkippedRootIs | agent/src/config_inventory.py:47-62 | skipped are exactly Logging, AllowedHosts and Kestrel with what is below them |
| ConfigInventory.FlatIsDistinct | agent/src/config_inventory.py:52-67 | under that condition no duplicates when keys are distinct within their object and colon-free |
| ConfigInventory.FlatFindsLeaves | agent/src/config_inventory.py:52-67 | under the same conditions a joined path is in the result if and only if it leads to a leaf outside the skipped roots |
| ConfigInventory.EmptyKeyExample | agent/src/config_inventory.py:58-62 | in an object under an empty root key the skipped roots apply one level down |
| ConfigInventory.ColonExample | agent/src/config_inventory.py:58-62 | a colon in a key gives two leaves one path |
| ConfigInventory.Merge | agent/src/config_inventory.py:133-146 | the loop with its `have` set yields the first occurrences in order; the auth kind is the existing one unless that is empty or "none", else the scanned one |
| ConfigInventory.MergeAssociative | agent/src/config_inventory.py:133-146 | merging is associative |
| ConfigInventory.MergeIdempotent | agent/src/config_inventory.py:133-146 | merging an inventory with itself gives it back if and only if it has no duplicates; merging the same scan twice is merging it once |
| ConfigInventory.MergeKeepsExisting | agent/src/config_inventory.py:133-146 | existing keys stay in front in their order, followed by exactly the new ones; the result is the duplicate-free union |

## Left out

- Narration.NarrationStreamer.ConsumeTail: decoding is one function per read; that no read cuts a character is a condition of the theorems that compare the live text with the whole output, and how a damaged character is replaced is not modelled.
- Narration.NarrationStreamer.FlushPending: a failing event store, which drops the held-back events, is not modelled.
- TurnRunner.RunTurn: shell text, environment, wrapper scripts, process signals and liveness probes are steps of the sandbox; only time inside the waits is bounded, and an infinite run is cut off by cancellation at the end of the script.
- SandboxExec.Sandbox.PollOnce: base64 is a parameter with stated laws; a damaged payload that still decodes (Python discards foreign characters) and a tail cut short in transit are not modelled.
- Settings.ParseInt: Python's limit on the number of digits is not modelled; which non-ASCII characters are digits is a parameter.
- Settings.Format: the formatter is applied to values of its own kind; float settings and values of a wrong shape are not modelled.
- ResumeCache.NamesRejection: lower-casing is exact for ASCII letters only; the verdict rule itself is proved for any rejection flag.
- ResumeProtocol.TakeTurn: that other turns use the cache meanwhile is in the state machine, not in this method.
- ResumeProtocol.FinishAnswer: usage and the error texts raised to the caller are not modelled, nor are session ids that are not strings; a `result` that is not a string counts as empty text, where the source takes its `str()`.
- RunActivity.RunActivity.Publish: bounded queues, dropping and the stream filter of a joined request are not modelled; a queue is everything ever put on it.
- SingleDriver.NextKeepsInv: requests without a thread id drive the graph inline and touch no registry.
- FullRead.ReadFullFileReads: finding and reading the transcript file; transcript lines that are not objects, on which the source raises too.
- Approvals.HistoryKept: the content hash and the clock are values in the record; concurrent writers of the file are not modelled.
- AcEval.ExecutionSummary: `sorted` lists are sets, and the rounded percentage is left out; how a test's name yields criterion ids is a parameter.
- `verification_summary` and `extract_config_keys`: the same kind of counting and first-seen loops, which would add easy members.
- ClaudeEvents.ClassifyOneEvent: run, session and event ids, timestamps taken from a clock, redaction and telemetry.
- Gates, prompts, sandbox provisioning, HTTP routes, stores and infrastructure: I/O around the modelled core.
