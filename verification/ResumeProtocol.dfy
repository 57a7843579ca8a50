/** The use both chat models make of the session cache, and what every interleaving of turns, evictions
    and closings keeps.  A turn reads the cached id when it starts, awaits its CLI run (and, for Copilot, the
    storing of its run events), and then updates the cache in one uninterrupted step. */
module ResumeProtocol {
  import opened Text
  import opened Jsonl
  import opened Narration
  import opened SandboxExec
  import opened WaitLoop
  import opened TurnRunner
  import opened ClaudeEvents
  import opened ResumeCache

  datatype Provider = Claude | Copilot

  /** What a turn's end says about its session; `rejection`: its text names a rejected resume. */
  datatype TurnEnd =
    | Killed(initId: Option<string>)              // a TimeoutError; the id in the partial output's init line
    | NoAnswer(rejection: bool)                   // no parseable line, or a non-zero exit code
    | Answered(isError: bool, returned: Option<string>, rejection: bool)
    | Aborted                                     // any other exception, or cancelled

  /** The verdict a turn's end records, if any. */
  function EndVerdict(requested: Option<string>, end: TurnEnd): Option<Verdict> {
    match end
    case Killed(_) => if requested.Some? then Some(Unknown) else None
    case NoAnswer(rejection) =>
      if requested.None? then None else if rejection then Some(Rejected) else Some(Unknown)
    case Answered(isError, returned, rejection) => ResumeCache.Classify(requested, returned, isError, rejection)
    case Aborted => None
  }

  /** The id the CLI itself named in a way that gets it cached. */
  function ReturnedId(provider: Provider, requested: Option<string>, end: TurnEnd): Option<string> {
    match end
    case Killed(initId) => if provider.Claude? && requested.None? then initId else None
    case Answered(false, returned, _) => returned
    case _ => None
  }

  /** The cache after a turn's end. */
  function Complete(provider: Provider, cache: Cache, key: string, requested: Option<string>, end: TurnEnd): Cache {
    match end
    case Killed(initId) =>
      var id := ReturnedId(provider, requested, end);
      var c := if id.Some? then cache.CacheId(key, id.value, None) else cache;
      if requested.Some? || id.Some? then Cache(c.ids, c.verdicts[key := Unknown]) else c
    case NoAnswer(_) =>
      if requested.Some? then cache.Record(key, EndVerdict(requested, end).value) else cache
    case Answered(isError, returned, _) =>
      var verdict := EndVerdict(requested, end);
      var c := if verdict.Some? then cache.Record(key, verdict.value) else cache;
      if !isError && returned.Some? then c.CacheId(key, returned.value, verdict) else c
    case Aborted => cache
  }

  /** A session id as the models accept it: a non-empty string. */
  function IdIn(line: Dict, field: string): Option<string> {
    var id := Get(line, field);
    if id.Str? && id.s != "" then Some(id.s) else None
  }

  function ErrorText(final: Dict): string {
    var text := Get(final, "result");
    if text.Str? then text.s else ""
  }

  predicate IsInit(line: Dict) {
    Get(line, "type") == Str("system") && Get(line, "subtype") == Str("init") && IdIn(line, "session_id").Some?
  }

  /** `_init_session_id`: the id on the first init line of a (possibly truncated) output. */
  method InitSessionId(loads: Loads<Dict>, partialStdout: string) returns (id: Option<string>)
    ensures id == FirstInitId(BatchEvents(loads, partialStdout))
    ensures id.Some? ==> id.value != ""
  {
    var events := ParseOutput(loads, partialStdout);
    for i := 0 to |events|
      invariant FirstInitId(events) == FirstInitId(events[i..])
    {
      if IsInit(events[i]) {
        return IdIn(events[i], "session_id");
      }
      assert events[i..][1..] == events[i + 1..];
    }
    assert events[|events|..] == [];
    return None;
  }

  function FirstInitId(events: seq<Dict>): Option<string> {
    if events == [] then None
    else if IsInit(events[0]) then IdIn(events[0], "session_id")
    else FirstInitId(events[1..])
  }

  /** Copilot's id: `sessionId` before `session_id` on a line, and the last line that has one. */
  function LineSessionId(line: Dict): Option<string> {
    if Truthy(Get(line, "sessionId")) then IdIn(line, "sessionId") else IdIn(line, "session_id")
  }

  function LastSessionId(events: seq<Dict>): Option<string> {
    if events == [] then None
    else if LineSessionId(Last(events)).Some? then LineSessionId(Last(events))
    else LastSessionId(Init(events))
  }

  method ParseCopilotOutput(loads: Loads<Dict>, stdout: string) returns (events: seq<Dict>, id: Option<string>)
    ensures events == BatchEvents(loads, stdout) && id == LastSessionId(events)
  {
    events := ParseOutput(loads, stdout);
    id := None;
    for i := 0 to |events|
      invariant id == LastSessionId(events[..i])
    {
      assert Init(events[..i + 1]) == events[..i];
      var candidate := LineSessionId(events[i]);
      if candidate.Some? {
        id := candidate;
      }
    }
    assert events[..|events|] == events;
  }

  /** What a turn of `run_turn` amounts to for the session cache. */
  function EndOf(provider: Provider, loads: Loads<Dict>, exit: Exit): TurnEnd {
    match exit
    case TurnTimeout(partial) => Killed(FirstInitId(BatchEvents(loads, partial)))
    case TurnCrashed(partial) => Killed(FirstInitId(BatchEvents(loads, partial)))
    case Failed(failure) => if failure.TimedOut? then Killed(FirstInitId(BatchEvents(loads, ""))) else Aborted
    case Finished(result) =>
      var events := BatchEvents(loads, result.stdout);
      if events == [] || result.exitCode != 0 then NoAnswer(NamesRejection(result.stdout + " " + result.stderr))
      else
        var final := Last(events);
        Answered(Truthy(Get(final, "is_error")),
                 if provider.Claude? then IdIn(final, "session_id") else LastSessionId(events),
                 NamesRejection(ErrorText(final)))
  }

  /** The session half of `_agenerate_inner` once `run_turn` is over: no await comes between its first and its
      last update of the cache. */
  method FinishTurn(provider: Provider, loads: Loads<Dict>, cache: SessionCache, key: string,
                    requested: Option<string>, exit: Exit)
    requires requested != Some("")
    modifies cache
    ensures cache.View() == Complete(provider, old(cache.View()), key, requested, EndOf(provider, loads, exit))
  {
    match exit
    case Finished(result) => FinishAnswer(provider, loads, cache, key, requested, result);
    case Failed(failure) =>
      if failure.TimedOut? {
        FinishKilled(provider, loads, cache, key, requested, "");
      }
    case TurnTimeout(partial) => FinishKilled(provider, loads, cache, key, requested, partial);
    case TurnCrashed(partial) => FinishKilled(provider, loads, cache, key, requested, partial);
  }

  /** The `except TimeoutError` handler. */
  method FinishKilled(provider: Provider, loads: Loads<Dict>, cache: SessionCache, key: string,
                      requested: Option<string>, partialStdout: string)
    modifies cache
    ensures cache.View() == Complete(provider, old(cache.View()), key, requested,
                                     Killed(FirstInitId(BatchEvents(loads, partialStdout))))
  {
    var sessionId := requested;
    if sessionId.None? && provider.Claude? {
      sessionId := InitSessionId(loads, partialStdout);
      if sessionId.Some? {
        cache.CacheSessionId(key, sessionId.value, None);
      }
    }
    if sessionId.Some? {
      cache.resumeStates := cache.resumeStates[key := Unknown];
    }
  }

  method FinishAnswer(provider: Provider, loads: Loads<Dict>, cache: SessionCache, key: string,
                      requested: Option<string>, result: TurnResult)
    requires requested != Some("")
    modifies cache
    ensures cache.View() == Complete(provider, old(cache.View()), key, requested, EndOf(provider, loads, Finished(result)))
  {
    var events, newSessionId := ParseCopilotOutput(loads, result.stdout);
    if events == [] || result.exitCode != 0 {
      if requested.Some? {
        var rejected := NamesRejection(result.stdout + " " + result.stderr);
        cache.RecordResumeState(key, if rejected then Rejected else Unknown);
      }
      return;
    }
    var final := Last(events);
    var isError := Truthy(Get(final, "is_error"));
    if provider.Claude? {
      newSessionId := IdIn(final, "session_id");
    }
    var resumeState := ClassifyResume(requested, newSessionId, isError, ErrorText(final));
    if resumeState.Some? {
      cache.RecordResumeState(key, resumeState.value);
    }
    if isError {
      return;
    }
    if newSessionId.Some? {
      cache.CacheSessionId(key, newSessionId.value, resumeState);
    }
  }

  // ---- every interleaving ----

  datatype Event =
    | TurnStarts(turn: nat, key: string)
    | TurnEnds(turn: nat, end: TurnEnd)
    | Evicted(threadId: string)
    | Closed(key: string)

  datatype Turn = Turn(key: string, requested: Option<string>)

  /** One provider's state: its cache, the turns awaiting their CLI, and for every recorded verdict the
      session id that verdict was about. */
  datatype State = State(provider: Provider, cache: Cache, turns: map<nat, Turn>, about: map<string, string>)

  function Cached(cache: Cache, key: string): Option<string> {
    if key in cache.ids then Some(cache.ids[key]) else None
  }

  /** A turn resumes an id exactly when one is cached (and not empty) as it starts. */
  function Requested(cache: Cache, key: string): Option<string> {
    if Cached(cache, key) == Some("") then None else Cached(cache, key)
  }

  function VerdictAbout(provider: Provider, turn: Turn, end: TurnEnd): Option<string> {
    if end.Killed? then (if turn.requested.Some? then turn.requested else ReturnedId(provider, None, end))
    else if EndVerdict(turn.requested, end).Some? then turn.requested
    else None
  }

  function Step(s: State, e: Event): State {
    match e
    case TurnStarts(t, key) =>
      if t in s.turns then s else s.(turns := s.turns[t := Turn(key, Requested(s.cache, key))])
    case TurnEnds(t, end) =>
      if t !in s.turns then s
      else
        var turn := s.turns[t];
        var about := VerdictAbout(s.provider, turn, end);
        State(s.provider, Complete(s.provider, s.cache, turn.key, turn.requested, end), s.turns - {t},
              if about.Some? then s.about[turn.key := about.value] else s.about)
    case Evicted(threadId) => s.(cache := s.cache.Forget(threadId))
    case Closed(key) => s.(cache := s.cache.Close(key))
  }

  function Start(provider: Provider): State {
    State(provider, Cache(map[], map[]), map[], map[])
  }

  function Run(s: State, events: seq<Event>): State {
    if events == [] then s else Step(Run(s, Init(events)), Last(events))
  }

  lemma RunTake(s: State, events: seq<Event>, n: nat)
    requires 0 < n <= |events|
    ensures Run(s, events[..n]) == Step(Run(s, events[..n - 1]), events[n - 1])
  {
    assert Init(events[..n]) == events[..n - 1];
  }

  /** "resumed" describes the id that is cached; "rejected" describes an id that is not. */
  ghost predicate Inv(s: State) {
    && (forall key | key in s.cache.verdicts :: key in s.about)
    && (forall key | key in s.cache.verdicts && s.cache.verdicts[key].Resumed? ::
          key in s.cache.ids && s.cache.ids[key] == s.about[key])
    && (forall key | key in s.cache.verdicts && s.cache.verdicts[key].Rejected? :: key !in s.cache.ids)
  }

  lemma StepKeepsInv(s: State, e: Event)
    requires Inv(s)
    ensures Inv(Step(s, e))
  {
    if e.TurnEnds? && e.turn in s.turns {
      EndKeepsInv(s, e.turn, e.end);
    }
  }

  lemma EndKeepsInv(s: State, t: nat, end: TurnEnd)
    requires Inv(s) && t in s.turns
    ensures Inv(Step(s, TurnEnds(t, end)))
  {
    var after := Step(s, TurnEnds(t, end));
    forall key | key in after.cache.verdicts
      ensures key in after.about
      ensures after.cache.verdicts[key].Resumed? ==> key in after.cache.ids && after.cache.ids[key] == after.about[key]
      ensures after.cache.verdicts[key].Rejected? ==> key !in after.cache.ids
    {
      if key != s.turns[t].key {
        EndFrame(s, t, end, key);
      }
    }
  }

  /** A turn's end concerns its own key only. */
  lemma EndFrame(s: State, t: nat, end: TurnEnd, key: string)
    requires t in s.turns && key != s.turns[t].key
    ensures var after := Step(s, TurnEnds(t, end));
            && Cached(after.cache, key) == Cached(s.cache, key)
            && (key in after.cache.verdicts <==> key in s.cache.verdicts)
            && (key in s.cache.verdicts ==> after.cache.verdicts[key] == s.cache.verdicts[key])
            && (key in after.about <==> key in s.about) && (key in s.about ==> after.about[key] == s.about[key])
  {
  }

  lemma {:induction false} InvAlways(provider: Provider, events: seq<Event>)
    ensures Inv(Run(Start(provider), events))
  {
    if events != [] {
      InvAlways(provider, Init(events));
      StepKeepsInv(Run(Start(provider), Init(events)), Last(events));
    }
  }

  /** The CLI of a turn on `key` named `id` in this step. */
  ghost predicate Names(s: State, e: Event, key: string, id: string) {
    && e.TurnEnds? && e.turn in s.turns && s.turns[e.turn].key == key
    && ReturnedId(s.provider, s.turns[e.turn].requested, e.end) == Some(id)
  }

  ghost predicate Rejects(s: State, e: Event, key: string, id: string) {
    && e.TurnEnds? && e.turn in s.turns && s.turns[e.turn] == Turn(key, Some(id))
    && EndVerdict(Some(id), e.end) == Some(Rejected)
  }

  lemma NewIdWasNamed(s: State, e: Event, key: string, id: string)
    requires Cached(s.cache, key) != Some(id) && Cached(Step(s, e).cache, key) == Some(id)
    ensures Names(s, e, key, id)
  {
  }

  ghost predicate NamesAt(s: State, events: seq<Event>, m: nat, key: string, id: string) {
    m < |events| && Names(Run(s, events[..m]), events[m], key, id)
  }

  lemma NamesAtPrefix(s: State, events: seq<Event>, m: nat, key: string, id: string)
    requires events != [] && NamesAt(s, Init(events), m, key, id)
    ensures NamesAt(s, events, m, key, id)
  {
    assert Init(events)[..m] == events[..m];
  }

  /** Where a cached id comes from: if it was not there at step i, a CLI has named it since. */
  lemma {:induction false} CachedIdWasNamed(s: State, events: seq<Event>, i: nat, key: string, id: string)
    requires i <= |events|
    requires Cached(Run(s, events[..i]).cache, key) != Some(id)
    requires Cached(Run(s, events).cache, key) == Some(id)
    ensures exists m :: i <= m && NamesAt(s, events, m, key, id)
  {
    assert events[..|events|] == events;
    var front := Init(events);
    if Cached(Run(s, front).cache, key) == Some(id) {
      assert front[..i] == events[..i];
      CachedIdWasNamed(s, front, i, key, id);
      var m :| i <= m && NamesAt(s, front, m, key, id);
      NamesAtPrefix(s, events, m, key, id);
    } else {
      NewIdWasNamed(Run(s, front), Last(events), key, id);
      assert front == events[..|events| - 1];
      assert NamesAt(s, events, |events| - 1, key, id);
    }
  }

  /** Run-level safety: after an id was rejected on a key, no turn on that key requests it again unless
      the CLI has named it anew in between. */
  lemma RejectedIdNeedsNaming(provider: Provider, events: seq<Event>, i: nat, key: string, id: string)
    requires i < |events|
    requires Rejects(Run(Start(provider), events[..i]), events[i], key, id)
    requires Requested(Run(Start(provider), events).cache, key) == Some(id)
    ensures exists m :: i < m && NamesAt(Start(provider), events, m, key, id)
  {
    RunTake(Start(provider), events, i + 1);
    CachedIdWasNamed(Start(provider), events, i + 1, key, id);
    var m :| i + 1 <= m && NamesAt(Start(provider), events, m, key, id);
  }

  /** An evicted thread's session comes back only when a CLI that was still running names it. */
  lemma EvictedIdNeedsNaming(provider: Provider, events: seq<Event>, i: nat, threadId: string, key: string, id: string)
    requires i < |events| && events[i] == Evicted(threadId) && ThreadPrefix(threadId) <= key
    requires Cached(Run(Start(provider), events).cache, key) == Some(id)
    ensures exists m :: i < m && NamesAt(Start(provider), events, m, key, id)
  {
    RunTake(Start(provider), events, i + 1);
    assert key !in Run(Start(provider), events[..i]).cache.Forget(threadId).ids;
    CachedIdWasNamed(Start(provider), events, i + 1, key, id);
    var m :| i + 1 <= m && NamesAt(Start(provider), events, m, key, id);
  }

  /** And it does come back then: an eviction that arrives while a turn awaits is undone by that turn. */
  lemma EvictionDuringTurn(s: State, turn: nat, threadId: string, id: string)
    requires turn in s.turns && ThreadPrefix(threadId) <= s.turns[turn].key
    requires id != ""
    ensures var after := Run(s, [Evicted(threadId), TurnEnds(turn, Answered(false, Some(id), false))]);
            Cached(after.cache, s.turns[turn].key) == Some(id)
  {
    var events := [Evicted(threadId), TurnEnds(turn, Answered(false, Some(id), false))];
    assert Init(events) == [Evicted(threadId)] && Init(Init(events)) == [];
    assert Run(s, []) == s;
    assert Run(s, Init(events)) == Step(s, Evicted(threadId));
  }

  /** The first complete line of `text` is an init line, on one line for the batch parser too, with this id. */
  predicate InitFirst(loads: Loads<Dict>, text: string, id: string) {
    var lines := CompleteLines(text);
    && lines != [] && NoBreak(Strip(lines[0]))
    && var event := ParseLine(loads, lines[0]);
       event.Some? && IsInit(event.value) && IdIn(event.value, "session_id") == Some(id)
  }

  /** Then that id is what `_init_session_id` finds, also in the stripped copy that is read back. */
  lemma InitIdIsFound(loads: Loads<Dict>, text: string, id: string)
    requires InitFirst(loads, text, id)
    ensures FirstInitId(BatchEvents(loads, Strip(text))) == Some(id)
  {
    var lines := CompleteLines(text);
    var event := ParseLine(loads, lines[0]).value;
    BatchIgnoresOuterSpace(loads, text);
    BatchByLine(loads, text, "");
    assert text + "" == text;
    KeptOneLine(lines[0]);
    AcceptedFromKept(loads, SplitLines(lines[0]), [lines[0]]);
    AcceptedConcat(loads, SplitLines(lines[0]), LinesOf(lines[1..]));
    assert [lines[0]][1..] == [] && Accepted(loads, [lines[0]]) == [event];
    assert BatchEvents(loads, text)[0] == event;
  }

  /** A killed or dead first turn of the Claude provider whose output's head begins with an init line leaves
      that line's id cached, with "unknown", whatever else has happened meanwhile. */
  lemma KilledFirstTurn(s: State, turn: nat, loads: Loads<Dict>, exit: Exit, head: string, id: string)
    requires s.provider.Claude? && turn in s.turns && s.turns[turn].requested.None?
    requires exit in {TurnTimeout(Strip(head)), TurnCrashed(Strip(head))} && InitFirst(loads, head, id)
    ensures SaysUnknownAbout(Step(s, TurnEnds(turn, EndOf(s.provider, loads, exit))), s.turns[turn].key, id)
  {
    InitIdIsFound(loads, head, id);
    assert EndOf(s.provider, loads, exit) == Killed(Some(id));
  }

  predicate SaysUnknownAbout(s: State, key: string, id: string) {
    && Cached(s.cache, key) == Some(id) && key in s.cache.verdicts && s.cache.verdicts[key] == Unknown
    && key in s.about && s.about[key] == id
  }

  /** The head of the output was read before a turn was closed. */
  predicate HeadWasRead(worked: seq<Entry>) {
    worked != [] && Last(worked).Entry? && Last(worked).command == Head
    && Last(worked).reply.Replied? && Last(worked).reply.ok
  }

  /** The cache says "unknown" about the id on the init line that `head` begins with. */
  ghost predicate RemembersInit(cache: Cache, key: string, loads: Loads<Dict>, head: string) {
    forall id | InitFirst(loads, head, id) ::
      Cached(cache, key) == Some(id) && key in cache.verdicts && cache.verdicts[key] == Unknown
  }

  /** A turn with its cache updates, nothing else using the cache meanwhile.  When a first Claude turn runs out
      of time or dies and the head of its output is read, that is the head of what it had written by then. */
  method TakeTurn<R>(provider: Provider, sandbox: Sandbox, loads: Loads<Dict>, classify: Narration.Classify<Dict, R>, streaming: bool,
                     cache: SessionCache, key: string, writes: nat, timeoutSeconds: real, pollSeconds: real)
    returns (exit: Exit, ghost worked: seq<Entry>, ghost streamer: NarrationStreamer<Dict, R>)
    requires sandbox.base64.Sound()
    modifies sandbox, cache
    ensures worked <= sandbox.log
    ensures var before := old(cache.View());
            cache.View() == Complete(provider, before, key, Requested(before, key), EndOf(provider, loads, exit))
    ensures provider.Claude? && Requested(old(cache.View()), key) == None && HeadWasRead(worked)
            && (exit.TurnTimeout? || exit.TurnCrashed?) ==>
              exists out :: streamer.consumed <= out <= sandbox.out
                            && RemembersInit(cache.View(), key, loads, sandbox.decode(HeadOf(out)))
  {
    var requested := Requested(cache.View(), key);
    var reader;
    ghost var run, closing, ended;
    ghost var before := cache.View();
    exit, reader, run, worked, closing, ended := RunTurn(sandbox, loads, classify, streaming, writes, timeoutSeconds, pollSeconds);
    streamer := reader;
    ghost var out :| out <= sandbox.out && (Finishes(run) ==> out == sandbox.out && sandbox.exitFile)
      && Worked(sandbox.decode, sandbox.stderr, sandbox.exitStatus, worked, out, reader, streaming, run, ended);
    FinishTurn(provider, loads, cache, key, requested, exit);
    if provider.Claude? && requested.None? && HeadWasRead(worked) && (exit.TurnTimeout? || exit.TurnCrashed?) {
      assert ended == exit;
      HeadReported(sandbox.decode, worked, out, exit.partialStdout);
      KilledRemembers(provider, before, key, loads, exit, sandbox.decode(HeadOf(out)));
    }
  }

  lemma HeadReported(decode: Decode, log: seq<Entry>, out: seq<Byte>, partialStdout: string)
    requires Partial(decode, log, out, partialStdout) && HeadWasRead(log)
    ensures partialStdout == Strip(decode(HeadOf(out)))
  {
  }

  lemma KilledRemembers(provider: Provider, before: Cache, key: string, loads: Loads<Dict>, exit: Exit, head: string)
    requires provider.Claude? && exit in {TurnTimeout(Strip(head)), TurnCrashed(Strip(head))}
    ensures RemembersInit(Complete(provider, before, key, None, EndOf(provider, loads, exit)), key, loads, head)
  {
    forall id | InitFirst(loads, head, id)
      ensures EndOf(provider, loads, exit) == Killed(Some(id))
    {
      InitIdIsFound(loads, head, id);
    }
  }

  // ---- the documented invariant ----

  /** "A resume_states entry must never describe a session id that is no longer the one cached." */
  ghost predicate LabelsCurrent(s: State) {
    forall key | key in s.cache.verdicts && key in s.cache.ids ::
      key in s.about && s.about[key] == s.cache.ids[key]
  }

  /** Exactly when a turn's end keeps that promise for its key: "unknown" must not land on a different
      id, cached while the turn was awaiting. */
  lemma EndKeepsLabel(s: State, t: nat, end: TurnEnd)
    requires Inv(s) && t in s.turns && s.turns[t].requested != Some("")
    ensures var turn, after := s.turns[t], Step(s, TurnEnds(t, end));
            var key := turn.key;
            EndVerdict(turn.requested, end).Some? ==>
              ((key in after.cache.verdicts && key in after.cache.ids ==> after.about[key] == after.cache.ids[key])
               <==> !(EndVerdict(turn.requested, end) == Some(Unknown)
                      && ReturnedId(s.provider, turn.requested, end).None?
                      && key in s.cache.ids && turn.requested != Some(s.cache.ids[key])))
  {
  }

  /** It holds throughout when no turn overlaps anything else on the provider. */
  datatype Whole = WholeTurn(key: string, end: TurnEnd) | WholeEvict(threadId: string) | WholeClose(key: string)

  function Sequential(s: State, steps: seq<Whole>): State {
    if steps == [] then s
    else
      var before := Sequential(s, Init(steps));
      match Last(steps)
      case WholeTurn(key, end) => Step(Step(before, TurnStarts(0, key)), TurnEnds(0, end))
      case WholeEvict(threadId) => Step(before, Evicted(threadId))
      case WholeClose(key) => Step(before, Closed(key))
  }

  predicate NonEmptyIds(end: TurnEnd) {
    match end
    case Killed(id) => id != Some("")
    case Answered(_, id, _) => id != Some("")
    case _ => true
  }

  /** What the end of every step keeps when turns do not overlap. */
  ghost predicate Quiet(s: State) {
    && LabelsCurrent(s) && Inv(s) && s.turns == map[]
    && forall key | key in s.cache.ids :: s.cache.ids[key] != ""
  }

  lemma WholeTurnQuiet(s: State, key: string, end: TurnEnd)
    requires Quiet(s) && NonEmptyIds(end)
    ensures Quiet(Step(Step(s, TurnStarts(0, key)), TurnEnds(0, end)))
  {
    var started := Step(s, TurnStarts(0, key));
    var after := Step(started, TurnEnds(0, end));
    StepKeepsInv(s, TurnStarts(0, key));
    StepKeepsInv(started, TurnEnds(0, end));
    assert after.turns == map[];
    forall k | k in after.cache.ids
      ensures after.cache.ids[k] != ""
      ensures k in after.cache.verdicts ==> k in after.about && after.about[k] == after.cache.ids[k]
    {
      if k != key {
        EndFrame(started, 0, end, k);
      }
    }
  }

  lemma {:induction false} SequentialLabels(provider: Provider, steps: seq<Whole>)
    requires forall i | 0 <= i < |steps| && steps[i].WholeTurn? :: NonEmptyIds(steps[i].end)
    ensures Quiet(Sequential(Start(provider), steps))
  {
    if steps != [] {
      SequentialLabels(provider, Init(steps));
      var before := Sequential(Start(provider), Init(steps));
      var step := steps[|steps| - 1];
      if step.WholeTurn? {
        WholeTurnQuiet(before, step.key, step.end);
      }
    }
  }

  /** With overlap it can fail: two turns resume x, one comes back as a fresh session y, the other is
      killed; the verdict about x then stands next to y. */
  lemma OverlapMislabels(provider: Provider, key: string, x: string, y: string)
    requires x != "" && y != "" && x != y
    ensures var cached := Step(Step(Start(provider), TurnStarts(0, key)), TurnEnds(0, Answered(false, Some(x), false)));
            var both := Step(Step(cached, TurnStarts(1, key)), TurnStarts(2, key));
            && Quiet(cached)
            && !LabelsCurrent(Step(Step(both, TurnEnds(2, Answered(false, Some(y), false))), TurnEnds(1, Killed(None))))
  {
    var cached := Step(Step(Start(provider), TurnStarts(0, key)), TurnEnds(0, Answered(false, Some(x), false)));
    WholeTurnQuiet(Start(provider), key, Answered(false, Some(x), false));
    var both := Step(Step(cached, TurnStarts(1, key)), TurnStarts(2, key));
    assert both.turns[1] == Turn(key, Some(x)) == both.turns[2];
    var renewed := Step(both, TurnEnds(2, Answered(false, Some(y), false)));
    assert Cached(renewed.cache, key) == Some(y) && renewed.turns[1] == Turn(key, Some(x));
  }
}
