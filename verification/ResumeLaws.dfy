/** What every run of the session protocol does, turn by turn, in plain terms: what the end of a turn leaves on its
    key, what the next turn requests, and what is read off a turn's exit. */
module ResumeLaws {
  import opened Text
  import opened Jsonl
  import opened Narration
  import SandboxExec
  import opened TurnRunner
  import opened ClaudeEvents
  import opened ResumeCache
  import opened ResumeProtocol

  function Label(cache: Cache, key: string): Option<Verdict> {
    if key in cache.verdicts then Some(cache.verdicts[key]) else None
  }

  /** What the key of a turn that resumed `id` holds after the turn. */
  predicate ResumedLeaves(before: Cache, after: Cache, key: string, id: string, end: TurnEnd) {
    match end
    case Answered(true, _, true) => Label(after, key) == Some(Rejected) && Cached(after, key) == None
    case NoAnswer(true) => Label(after, key) == Some(Rejected) && Cached(after, key) == None
    case Answered(false, Some(returned), _) =>
      Cached(after, key) == Some(returned) && Label(after, key) == if returned == id then Some(Resumed) else None
    case Aborted => Label(after, key) == Label(before, key) && Cached(after, key) == Cached(before, key)
    case _ => Label(after, key) == Some(Unknown) && Cached(after, key) == Cached(before, key)
  }

  /** What the key of a turn that resumed nothing holds after the turn. */
  predicate FreshLeaves(provider: Provider, before: Cache, after: Cache, key: string, end: TurnEnd) {
    match end
    case Answered(false, Some(returned), _) => Cached(after, key) == Some(returned) && Label(after, key) == None
    case Killed(Some(initId)) =>
      if provider.Claude? then Cached(after, key) == Some(initId) && Label(after, key) == Some(Unknown)
      else Label(after, key) == Label(before, key) && Cached(after, key) == Cached(before, key)
    case _ => Label(after, key) == Label(before, key) && Cached(after, key) == Cached(before, key)
  }

  lemma {:induction false} RequestsAreIds(provider: Provider, events: seq<Event>, t: nat)
    requires t in Run(Start(provider), events).turns
    ensures Run(Start(provider), events).turns[t].requested != Some("")
  {
    if events != [] && t in Run(Start(provider), Init(events)).turns {
      RequestsAreIds(provider, Init(events), t);
    }
  }

  lemma {:induction false} ProviderStays(s: State, events: seq<Event>)
    ensures Run(s, events).provider == s.provider
  {
    if events != [] {
      ProviderStays(s, Init(events));
    }
  }

  /** After any events, the end of any turn leaves exactly that. */
  lemma TurnEndLeaves(provider: Provider, events: seq<Event>, t: nat, end: TurnEnd)
    requires t in Run(Start(provider), events).turns
    ensures var s := Run(Start(provider), events);
            var turn, after := s.turns[t], Step(s, TurnEnds(t, end));
            match turn.requested
            case Some(id) => ResumedLeaves(s.cache, after.cache, turn.key, id, end)
            case None => FreshLeaves(provider, s.cache, after.cache, turn.key, end)
  {
    RequestsAreIds(provider, events, t);
    ProviderStays(Start(provider), events);
  }

  /** The next turn on a key requests the cached id, if there is a non-empty one, and nothing else. */
  lemma NextTurnRequests(s: State, t: nat, key: string)
    requires t !in s.turns
    ensures var started := Step(s, TurnStarts(t, key));
            && t in started.turns && started.turns[t].key == key && started.cache == s.cache
            && forall id :: started.turns[t].requested == Some(id) <==> id != "" && key in s.cache.ids && s.cache.ids[key] == id
  {
  }

  /** A rejected resume: the verdict says so, and the next turn on the key, if nothing else happens in between,
      requests nothing. */
  lemma RejectedStartsFresh(provider: Provider, events: seq<Event>, t: nat, end: TurnEnd, next: nat)
    requires t in Run(Start(provider), events).turns && Run(Start(provider), events).turns[t].requested.Some?
    requires end == NoAnswer(true) || (end.Answered? && end.isError && end.rejection)
    requires next !in Run(Start(provider), events).turns
    ensures var s := Run(Start(provider), events);
            var key, after := s.turns[t].key, Step(s, TurnEnds(t, end));
            && Label(after.cache, key) == Some(Rejected)
            && Step(after, TurnStarts(next, key)).turns[next] == Turn(key, None)
  {
    TurnEndLeaves(provider, events, t, end);
  }

  /** A resume that the CLI confirms: the verdict is about that id, and it is the one that is cached. */
  lemma ConfirmedIsResumed(provider: Provider, events: seq<Event>, t: nat, id: string, rejection: bool)
    requires t in Run(Start(provider), events).turns && Run(Start(provider), events).turns[t].requested == Some(id)
    ensures var s := Run(Start(provider), events);
            var key, after := s.turns[t].key, Step(s, TurnEnds(t, Answered(false, Some(id), rejection)));
            && Label(after.cache, key) == Some(Resumed) && Cached(after.cache, key) == Some(id)
            && key in after.about && after.about[key] == id
  {
    TurnEndLeaves(provider, events, t, Answered(false, Some(id), rejection));
    RequestsAreIds(provider, events, t);
  }

  /** Closing a key forgets its id and its verdict, and nothing of any other key; the next turn on it is fresh. */
  lemma ClosedStartsFresh(s: State, key: string, other: string, t: nat)
    requires t !in s.turns
    ensures var after := Step(s, Closed(key));
            && Cached(after.cache, key) == None && Label(after.cache, key) == None
            && Step(after, TurnStarts(t, key)).turns[t] == Turn(key, None)
            && (other != key ==> Cached(after.cache, other) == Cached(s.cache, other)
                                 && Label(after.cache, other) == Label(s.cache, other))
  {
  }

  // ---- what a turn's exit says ----

  predicate NamesInit(line: Dict, id: string) {
    Get(line, "type") == Str("system") && Get(line, "subtype") == Str("init") && Get(line, "session_id") == Str(id) && id != ""
  }

  /** The id of the first init line that names one. */
  lemma {:induction false} FirstInitIs(events: seq<Dict>, id: string)
    ensures FirstInitId(events) == Some(id)
       <==> exists i :: 0 <= i < |events| && NamesInit(events[i], id)
                        && forall j, other | 0 <= j < i :: !NamesInit(events[j], other)
  {
    if events != [] {
      FirstInitIs(events[1..], id);
      InitNames(events[0]);
      assert forall i | 0 <= i < |events| - 1 :: events[1..][i] == events[i + 1];
      if FirstInitId(events[1..]) == Some(id) && !IsInit(events[0]) {
        var i :| 0 <= i < |events| - 1 && NamesInit(events[1..][i], id)
                 && forall j, other | 0 <= j < i :: !NamesInit(events[1..][j], other);
        forall j, other | 0 <= j < i + 1 ensures !NamesInit(events[j], other) {
          if j > 0 { assert events[1..][j - 1] == events[j]; }
        }
        assert NamesInit(events[i + 1], id);
      }
      if i :| 0 <= i < |events| && NamesInit(events[i], id) && forall j, other | 0 <= j < i :: !NamesInit(events[j], other) {
        if i > 0 {
          assert events[1..][i - 1] == events[i];
          forall j, other | 0 <= j < i - 1 ensures !NamesInit(events[1..][j], other) {
            assert events[1..][j] == events[j + 1];
          }
        }
      }
    }
  }

  lemma InitNames(line: Dict)
    ensures IsInit(line) <==> exists id :: NamesInit(line, id)
    ensures forall id :: NamesInit(line, id) <==> IsInit(line) && IdIn(line, "session_id") == Some(id)
  {
    if IsInit(line) {
      assert NamesInit(line, Get(line, "session_id").s);
    }
  }

  /** A turn that ran out of time or died was killed, and its partial output may name a session; a time-out
      elsewhere names none, and any other failure leaves the cache alone. */
  lemma KilledRead(provider: Provider, loads: Loads<Dict>, partial: string, failure: SandboxExec.Failure)
    ensures EndOf(provider, loads, TurnTimeout(partial)) == Killed(FirstInitId(BatchEvents(loads, partial)))
    ensures EndOf(provider, loads, TurnCrashed(partial)) == Killed(FirstInitId(BatchEvents(loads, partial)))
    ensures failure.TimedOut? ==> EndOf(provider, loads, Failed(failure)) == Killed(None)
    ensures !failure.TimedOut? ==> EndOf(provider, loads, Failed(failure)) == Aborted
  {
  }

  /** A line of Copilot's output names a session: under `sessionId`, or, if that is falsy, under `session_id`. */
  predicate NamesSession(line: Dict, id: string) {
    && id != ""
    && (Get(line, "sessionId") == Str(id) || (!Truthy(Get(line, "sessionId")) && Get(line, "session_id") == Str(id)))
  }

  lemma {:induction false} LastSessionIdIs(events: seq<Dict>, id: string)
    ensures LastSessionId(events) == Some(id)
       <==> NamedLast(events, id)
  {
    if events != [] {
      var front, last := Init(events), Last(events);
      LastSessionIdIs(front, id);
      LineNames(last);
      assert last == events[|events| - 1] && forall i | 0 <= i < |front| :: front[i] == events[i];
    }
  }

  lemma LineNames(line: Dict)
    ensures forall id :: LineSessionId(line) == Some(id) <==> NamesSession(line, id)
    ensures LineSessionId(line).None? <==> forall id :: !NamesSession(line, id)
  {
    if LineSessionId(line).Some? {
      assert NamesSession(line, LineSessionId(line).value);
    }
  }

  /** What is read off a turn that came back: an answer needs exit code 0 and a last line, whose error flag it has;
      Claude names its session on that line, Copilot on any. */
  lemma AnswerRead(provider: Provider, loads: Loads<Dict>, result: TurnResult)
    ensures var events, end := BatchEvents(loads, result.stdout), EndOf(provider, loads, Finished(result));
            && (end.Answered? <==> events != [] && result.exitCode == 0)
            && (end.Answered? ==> AnswerSays(provider, events, end))
            && (!end.Answered? ==> end == NoAnswer(NamesRejection(result.stdout + " " + result.stderr)))
  {
    var events := BatchEvents(loads, result.stdout);
    forall id ensures LastSessionId(events) == Some(id) <==> NamedLast(events, id) { LastSessionIdIs(events, id); }
  }

  ghost predicate NamedLast(events: seq<Dict>, id: string) {
    exists i :: 0 <= i < |events| && NamesSession(events[i], id)
                && forall j, other | i < j < |events| :: !NamesSession(events[j], other)
  }

  ghost predicate AnswerSays(provider: Provider, events: seq<Dict>, end: TurnEnd)
    requires events != [] && end.Answered?
  {
    var last := Last(events);
    && (end.isError <==> Truthy(Get(last, "is_error")))
    && (forall id :: end.returned == Some(id) <==>
          if provider.Claude? then id != "" && Get(last, "session_id") == Str(id) else NamedLast(events, id))
    && (end.rejection <==> NamesRejection(if Get(last, "result").Str? then Get(last, "result").s else ""))
  }
}
