/** The time-limited cache of the org's active provider, with any number of concurrent readers: a miss
    awaits the database, and its result is written back when that await returns. */
module ProviderCache {
  import opened Text

  const PROVIDER_CACHE_TTL_SECONDS := 30.0

  datatype Entry = Entry(value: string, fetchedAt: real)

  /** What `org_settings.get_org_settings()` comes back with: an exception, no row, or a provider. */
  datatype Fetched = Raised | Row(provider: Option<string>)

  datatype Outcome = Provider(value: string) | UnknownProvider

  predicate Known(provider: string) {
    provider == "claude" || provider == "copilot"
  }

  /** The saved provider, or the environment's. */
  function Resolve(row: Option<string>, env: string): string {
    match row
    case Some(provider) => provider
    case None => env
  }

  function Fresh(cache: Option<Entry>, now: real): Option<string> {
    if cache.Some? && now - cache.value.fetchedAt < PROVIDER_CACHE_TTL_SECONDS then Some(cache.value.value) else None
  }

  /** What a reader returns when its await is over, and what it leaves in the cache. */
  function FetchOutcome(cache: Option<Entry>, fetched: Fetched, env: string): Outcome {
    match fetched
    case Raised =>
      if cache.Some? then Provider(cache.value.value) else if Known(env) then Provider(env) else UnknownProvider
    case Row(row) => if Known(Resolve(row, env)) then Provider(Resolve(row, env)) else UnknownProvider
  }

  function CacheAfter(cache: Option<Entry>, fetched: Fetched, env: string, now: real): Option<Entry> {
    if fetched.Row? && Known(Resolve(fetched.provider, env)) then Some(Entry(Resolve(fetched.provider, env), now)) else cache
  }

  class ProviderCache {
    var providerCache: Option<Entry>
    const env: string

    constructor (env: string)
      ensures providerCache == None && this.env == env
    {
      providerCache := None;
      this.env := env;
    }

    method CachedProviderIfFresh(now: real) returns (value: Option<string>)
      ensures value == Fresh(providerCache, now)
      ensures value.Some? <==> providerCache.Some? && now - providerCache.value.fetchedAt < PROVIDER_CACHE_TTL_SECONDS
      ensures value.Some? ==> value.value == providerCache.value.value
    {
      if providerCache.None? { return None; }
      var Entry(cached, fetchedAt) := providerCache.value;
      if now - fetchedAt >= PROVIDER_CACHE_TTL_SECONDS { return None; }
      return Some(cached);
    }

    /** `get_provider` from the return of its await on: the saved provider, or, without a row, the environment's, is
        returned and cached if it is one of the two; otherwise nothing is cached.  A failed read returns what is
        cached, however old. */
    method FinishFetch(fetched: Fetched, now: real) returns (outcome: Outcome)
      modifies this
      ensures outcome == FetchOutcome(old(providerCache), fetched, env)
      ensures providerCache == CacheAfter(old(providerCache), fetched, env, now)
      ensures forall p | fetched == Row(Some(p)) || (fetched == Row(None) && env == p) ::
                if p in {"claude", "copilot"} then outcome == Provider(p) && providerCache == Some(Entry(p, now))
                else outcome == UnknownProvider && providerCache == old(providerCache)
      ensures fetched == Raised ==>
                && providerCache == old(providerCache)
                && (old(providerCache).Some? ==> outcome == Provider(old(providerCache).value.value))
                && (old(providerCache).None? ==>
                      outcome == if env in {"claude", "copilot"} then Provider(env) else UnknownProvider)
    {
      if fetched.Raised? {
        if providerCache.Some? { return Provider(providerCache.value.value); }
        return if Known(env) then Provider(env) else UnknownProvider;
      }
      var value := Resolve(fetched.provider, env);
      if !Known(value) { return UnknownProvider; }
      providerCache := Some(Entry(value, now));
      return Provider(value);
    }

    method Invalidate()
      modifies this
      ensures providerCache == None
    {
      providerCache := None;
    }
  }

  // ---- concurrent readers ----

  /** A fetch is awaiting, has read the settings row, or is over. */
  datatype Fetch = Awaiting | HasRead(row: Option<string>) | Over

  datatype State = State(env: string, cache: Option<Entry>, clock: real, row: Option<string>, fetches: seq<Fetch>) {
    predicate Is(id: nat, fetch: Fetch) {
      id < |fetches| && fetches[id] == fetch
    }

    predicate Reading(id: nat) {
      id < |fetches| && fetches[id].HasRead?
    }

    function Serve(): Option<string> {
      Fresh(cache, clock)
    }
  }

  datatype Step =
    | Tick(seconds: real)
    | Save(provider: string)       // the settings row changes
    | Invalidate
    | Begin                        // a reader misses and starts to await
    | Reads(id: nat)               // its query sees the row
    | Ends(id: nat)
    | Fails(id: nat)

  function Next(s: State, e: Step): State {
    match e
    case Tick(seconds) => if seconds >= 0.0 then s.(clock := s.clock + seconds) else s
    case Save(provider) => s.(row := Some(provider))
    case Invalidate => s.(cache := None)
    case Begin => if s.Serve().None? then s.(fetches := s.fetches + [Awaiting]) else s
    case Reads(id) => if s.Is(id, Awaiting) then s.(fetches := s.fetches[id := HasRead(s.row)]) else s
    case Ends(id) =>
      if s.Reading(id) then
        s.(cache := CacheAfter(s.cache, Row(s.fetches[id].row), s.env, s.clock), fetches := s.fetches[id := Over])
      else s
    case Fails(id) =>
      if id < |s.fetches| && !s.fetches[id].Over? then s.(fetches := s.fetches[id := Over]) else s
  }

  /** What a call returns in this step: a hit at once, a miss when its await is over, and then perhaps the
      fall-back of a failed fetch. */
  function Returned(s: State, e: Step): Option<Outcome> {
    match e
    case Begin => if s.Serve().Some? then Some(Provider(s.Serve().value)) else None
    case Ends(id) => if s.Reading(id) then Some(FetchOutcome(s.cache, Row(s.fetches[id].row), s.env)) else None
    case Fails(id) =>
      if id < |s.fetches| && !s.fetches[id].Over? then Some(FetchOutcome(s.cache, Raised, s.env)) else None
    case _ => None
  }

  function After(s: State, steps: seq<Step>): State {
    if steps == [] then s else Next(After(s, Init(steps)), Last(steps))
  }

  /** The state before step i of a run. */
  function At(s: State, steps: seq<Step>, i: nat): State
    requires i <= |steps|
  {
    After(s, steps[..i])
  }

  lemma AtNext(s: State, steps: seq<Step>, i: nat)
    requires i < |steps|
    ensures At(s, steps, i + 1) == Next(At(s, steps, i), steps[i])
  {
    assert Init(steps[..i + 1]) == steps[..i];
  }

  /** Fetch `id` read `row` at step r. */
  ghost predicate ReadAt(s: State, steps: seq<Step>, r: nat, id: nat, row: Option<string>) {
    r < |steps| && steps[r] == Reads(id) && At(s, steps, r).Is(id, Awaiting) && At(s, steps, r).row == row
  }

  /** Fetch `id` was written back at step e with the row it had read. */
  ghost predicate EndedAt(s: State, steps: seq<Step>, e: nat, id: nat, row: Option<string>) {
    e < |steps| && steps[e] == Ends(id) && At(s, steps, e).Is(id, HasRead(row))
  }

  lemma {:induction false} ReadHasSource(s: State, steps: seq<Step>, n: nat, id: nat)
    requires n <= |steps| && At(s, steps, n).Reading(id)
    requires !s.Reading(id)
    ensures exists r :: 0 <= r < n && ReadAt(s, steps, r, id, At(s, steps, n).fetches[id].row)
  {
    assert steps[..0] == [];
    var row := At(s, steps, n).fetches[id].row;
    AtNext(s, steps, n - 1);
    if At(s, steps, n - 1).Reading(id) {
      ReadHasSource(s, steps, n - 1, id);
    } else {
      assert ReadAt(s, steps, n - 1, id, row);
    }
  }

  /** Where a cached entry comes from: the write-back of a fetch, at the entry's own time. */
  lemma {:induction false} EntryHasSource(s: State, steps: seq<Step>, n: nat)
    requires n <= |steps| && At(s, steps, n).cache.Some?
    requires s.cache.None?
    ensures var entry := At(s, steps, n).cache.value;
            exists e, id, row :: 0 <= e < n && EndedAt(s, steps, e, id, row)
                         && Resolve(row, At(s, steps, e).env) == entry.value && At(s, steps, e).clock == entry.fetchedAt
  {
    assert steps[..0] == [];
    AtNext(s, steps, n - 1);
    var before, entry := At(s, steps, n - 1), At(s, steps, n).cache.value;
    if before.cache == Some(entry) {
      EntryHasSource(s, steps, n - 1);
    } else {
      var id := steps[n - 1].id;
      assert EndedAt(s, steps, n - 1, id, before.fetches[id].row);
    }
  }

  lemma {:induction false} EnvConstant(s: State, steps: seq<Step>, n: nat)
    requires n <= |steps|
    ensures At(s, steps, n).env == s.env
  {
    if n > 0 {
      AtNext(s, steps, n - 1);
      EnvConstant(s, steps, n - 1);
    }
  }

  /** A cache hit returns what the setting was at some instant of a fetch that ended less than the TTL
      earlier. */
  lemma HitWasTheSetting(env: string, row: Option<string>, steps: seq<Step>, value: string)
    requires var s := State(env, None, 0.0, row, []); After(s, steps).Serve() == Some(value)
    ensures var s := State(env, None, 0.0, row, []);
            exists r, e, id, seen :: 0 <= r < e < |steps|
              && ReadAt(s, steps, r, id, seen) && EndedAt(s, steps, e, id, seen)
              && Resolve(seen, env) == value
              && After(s, steps).clock - At(s, steps, e).clock < PROVIDER_CACHE_TTL_SECONDS
  {
    var s := State(env, None, 0.0, row, []);
    assert steps[..|steps|] == steps;
    EntryHasSource(s, steps, |steps|);
    var entry := After(s, steps).cache.value;
    var e, id, seen :| 0 <= e < |steps| && EndedAt(s, steps, e, id, seen)
      && Resolve(seen, At(s, steps, e).env) == entry.value && At(s, steps, e).clock == entry.fetchedAt;
    EnvConstant(s, steps, e);
    ReadHasSource(s, steps, e, id);
    var r :| 0 <= r < e && ReadAt(s, steps, r, id, seen);
  }

  // ---- saving and invalidating ----

  /** Fetch `id` has read a row whose provider is not the current one, and would be cached. */
  predicate Outdated(s: State, id: nat) {
    && s.Reading(id)
    && Known(Resolve(s.fetches[id].row, s.env)) && Resolve(s.fetches[id].row, s.env) != Resolve(s.row, s.env)
  }

  ghost predicate UpToDate(s: State) {
    && (s.cache.Some? ==> s.cache.value.value == Resolve(s.row, s.env))
    && forall id: nat :: !Outdated(s, id)
  }

  predicate NoSave(steps: seq<Step>) {
    forall i | 0 <= i < |steps| :: !steps[i].Save?
  }

  lemma {:induction false} StaysUpToDate(s: State, steps: seq<Step>)
    requires UpToDate(s) && NoSave(steps)
    ensures UpToDate(After(s, steps)) && After(s, steps).row == s.row && After(s, steps).env == s.env
  {
    if steps != [] {
      StaysUpToDate(s, Init(steps));
      var before, after := After(s, Init(steps)), After(s, steps);
      assert !steps[|steps| - 1].Save?;
      forall id: nat
        ensures !Outdated(after, id)
      {
        assert !Outdated(before, id);
        if Last(steps).Ends? { assert !Outdated(before, Last(steps).id); }
      }
      if Last(steps).Ends? { assert !Outdated(before, Last(steps).id); }
    }
  }

  // ---- what callers get after a save and an invalidation ----

  /** A call returns a provider in this step, and not the current one. */
  predicate ReturnsWrong(s: State, e: Step) {
    && Returned(s, e).Some? && Returned(s, e).value.Provider?
    && Returned(s, e).value.value != Resolve(s.row, s.env)
  }

  /** The cache holds another provider than the current one, however old the entry is. */
  predicate HoldsWrong(s: State) {
    s.cache.Some? && s.cache.value.value != Resolve(s.row, s.env)
  }

  /** The fall-back to the environment gives another provider than the current one. */
  predicate FallsBackWrong(s: State) {
    Known(s.env) && s.env != Resolve(s.row, s.env)
  }

  /** The calls that return a wrong provider `now`, in a run from `s`: an outdated fetch that was in flight in
      `s` returns its own row; a hit does while the wrong entry is fresh; a failing read does while it is held,
      however old, or while nothing is cached and the environment's provider is wrong. */
  predicate AnswersWrong(s: State, now: State, e: Step) {
    || (e.Ends? && Outdated(s, e.id) && now.Reading(e.id))
    || (e.Begin? && HoldsWrong(now) && now.Serve().Some?)
    || (e.Fails? && e.id < |now.fetches| && !now.fetches[e.id].Over?
        && (HoldsWrong(now) || (now.cache.None? && FallsBackWrong(s))))
  }

  /** Those are exactly the ones, until the next save. */
  lemma WrongAnswers(s: State, steps: seq<Step>, e: Step)
    requires s.cache.None? && NoSave(steps)
    ensures ReturnsWrong(After(s, steps), e) <==> AnswersWrong(s, After(s, steps), e)
  {
    var n := |steps|;
    assert steps[..n] == steps;
    RowUnchanged(s, steps, n);
    EnvConstant(s, steps, n);
    if e.Ends? && After(s, steps).Reading(e.id) {
      InFlight(s, steps, n, e.id, After(s, steps).fetches[e.id].row);
      if Outdated(s, e.id) {
        StillReads(s, steps, n, e.id);
      }
    }
  }

  /** A fetch that has read its row and is not over still has that row. */
  lemma {:induction false} StillReads(s: State, steps: seq<Step>, n: nat, id: nat)
    requires n <= |steps| && s.Reading(id) && At(s, steps, n).Reading(id)
    ensures At(s, steps, n).fetches[id] == s.fetches[id]
  {
    if n == 0 {
      assert steps[..0] == [];
    } else {
      AtNext(s, steps, n - 1);
      if At(s, steps, n - 1).Reading(id) {
        StillReads(s, steps, n - 1, id);
      } else {
        OverStaysOver(s, steps, n - 1, id);
      }
    }
  }

  lemma {:induction false} OverStaysOver(s: State, steps: seq<Step>, n: nat, id: nat)
    requires n <= |steps| && s.Reading(id) && !At(s, steps, n).Reading(id)
    ensures At(s, steps, n).Is(id, Over)
  {
    assert steps[..0] == [];
    if n > 0 {
      AtNext(s, steps, n - 1);
      if !At(s, steps, n - 1).Reading(id) {
        OverStaysOver(s, steps, n - 1, id);
      }
    }
  }

  /** At step e an outdated fetch was written back, and the cache has been left as it is since. */
  ghost predicate LateWriteBack(s: State, steps: seq<Step>, e: nat, id: nat) {
    && e < |steps| && steps[e] == Ends(id) && Outdated(s, id) && At(s, steps, e).Reading(id)
    && After(s, steps).cache == Some(Entry(Resolve(s.fetches[id].row, s.env), At(s, steps, e).clock))
  }

  /** A wrong provider is held exactly when it was written back late. */
  lemma HeldWrongIsLate(s: State, steps: seq<Step>)
    requires s.cache.None? && NoSave(steps)
    ensures HoldsWrong(After(s, steps)) <==> exists e, id :: LateWriteBack(s, steps, e, id)
  {
    var n := |steps|;
    assert steps[..n] == steps;
    RowUnchanged(s, steps, n);
    EnvConstant(s, steps, n);
    if HoldsWrong(After(s, steps)) {
      EntryHasSource(s, steps, n);
      var entry := After(s, steps).cache.value;
      var e, id, row :| 0 <= e < n && EndedAt(s, steps, e, id, row)
        && Resolve(row, At(s, steps, e).env) == entry.value && At(s, steps, e).clock == entry.fetchedAt;
      EnvConstant(s, steps, e);
      EntryKnown(s, steps, n);
      InFlight(s, steps, e, id, row);
      assert LateWriteBack(s, steps, e, id);
    }
  }

  ghost predicate CanReturnWrong(s: State, steps: seq<Step>, e: Step) {
    NoSave(steps) && ReturnsWrong(After(s, steps), e)
  }

  /** Right after a save and an invalidation: a call can return a wrong provider before the next save if and
      only if some fetch still in flight has already read an outdated row, or a failing read would fall back
      to another provider. */
  lemma InvalidationClosesTheWindow(s: State)
    requires s.cache.None?
    ensures (exists steps, e :: CanReturnWrong(s, steps, e)) <==> (exists id: nat :: Outdated(s, id)) || FallsBackWrong(s)
  {
    assert After(s, []) == s;
    if exists id: nat :: Outdated(s, id) {
      var id: nat :| Outdated(s, id);
      assert CanReturnWrong(s, [], Ends(id));
    } else if FallsBackWrong(s) {
      assert Init([Begin]) == [] && After(s, [Begin]).fetches == s.fetches + [Awaiting];
      assert CanReturnWrong(s, [Begin], Fails(|s.fetches|));
    } else {
      forall steps, e
        ensures !CanReturnWrong(s, steps, e)
      {
        if NoSave(steps) {
          WrongAnswers(s, steps, e);
          HeldWrongIsLate(s, steps);
        }
      }
    }
  }

  /** With no such fetch, every later read that reaches the database returns the saved provider, and so
      does a failing one unless the cache is still empty. */
  lemma LaterReadsReturnTheSaved(s: State, steps: seq<Step>, id: nat)
    requires s.cache.None? && (forall i: nat :: !Outdated(s, i)) && NoSave(steps)
    requires Known(Resolve(s.row, s.env))
    ensures var later := After(s, steps);
            && (later.Reading(id) ==>
                  FetchOutcome(later.cache, Row(later.fetches[id].row), s.env) in {Provider(Resolve(s.row, s.env)), UnknownProvider})
            && FetchOutcome(later.cache, Raised, s.env) ==
                 if later.cache.Some? then Provider(Resolve(s.row, s.env))
                 else if Known(s.env) then Provider(s.env) else UnknownProvider
  {
    StaysUpToDate(s, steps);
    assert !Outdated(After(s, steps), id);
  }

  /** A fetch in flight that has read another provider than `p`, one that it would return. */
  predicate HasReadAnother(s: State, id: nat, p: string) {
    && id < |s.fetches| && s.fetches[id].HasRead?
    && var q := if s.fetches[id].row.Some? then s.fetches[id].row.value else s.env;
       q in {"claude", "copilot"} && q != p
  }

  /** The same in plain terms: after `p` was saved and the cache invalidated, with no such fetch in flight, every
      call until the next save returns `p`, but for fetches that had read an unknown provider before, and failing
      reads while nothing is cached, which return the environment's. */
  lemma SavedIsReturned(before: State, p: string, steps: seq<Step>, e: Step)
    requires p in {"claude", "copilot"} && NoSave(steps)
    requires forall id :: !HasReadAnother(before, id, p)
    ensures var s := Next(Next(before, Save(p)), Invalidate);
            var later := After(s, steps);
            var returned := Returned(later, e);
            && (e.Begin? && returned.Some? ==> returned == Some(Provider(p)))
            && (e.Ends? && returned.Some? ==>
                  returned == Some(Provider(p)) || (returned == Some(UnknownProvider) && before.Reading(e.id)))
            && (e.Fails? && returned.Some? ==>
                  if later.cache.Some? then returned == Some(Provider(p))
                  else returned == Some(if before.env in {"claude", "copilot"} then Provider(before.env) else UnknownProvider))
  {
    var s := Next(Next(before, Save(p)), Invalidate);
    forall id: nat ensures !Outdated(s, id) { assert !HasReadAnother(before, id, p); }
    StaysUpToDate(s, steps);
    var later := After(s, steps);
    if e.Ends? && later.Reading(e.id) {
      assert steps[..|steps|] == steps && !Outdated(later, e.id);
      InFlight(s, steps, |steps|, e.id, later.fetches[e.id].row);
    }
  }

  /** Otherwise a hit returns the stale provider for less than the TTL after the late write-back of a fetch
      that was in flight at the invalidation. */
  lemma StaleHitsAreBounded(s: State, steps: seq<Step>)
    requires s.cache.None? && NoSave(steps) && ReturnsWrong(After(s, steps), Begin)
    ensures exists e, id :: LateWriteBack(s, steps, e, id)
              && After(s, steps).clock - At(s, steps, e).clock < PROVIDER_CACHE_TTL_SECONDS
  {
    WrongAnswers(s, steps, Begin);
    HeldWrongIsLate(s, steps);
    var e, id :| LateWriteBack(s, steps, e, id);
  }

  /** A failing read is not bounded: an expired entry stays in the cache, so after any wait it is returned. */
  lemma StaleFallBackIsNot(s: State, id: nat, wait: real)
    requires s.cache.None? && Outdated(s, id) && wait >= PROVIDER_CACHE_TTL_SECONDS
    ensures var steps := [Ends(id), Tick(wait), Begin];
            && NoSave(steps) && ReturnsWrong(After(s, steps), Fails(|s.fetches|))
            && After(s, steps).clock == s.clock + wait
            && Returned(After(s, steps), Fails(|s.fetches|)) == Some(Provider(Resolve(s.fetches[id].row, s.env)))
  {
    var steps := [Ends(id), Tick(wait), Begin];
    assert Init(steps) == [Ends(id), Tick(wait)] && Init(Init(steps)) == [Ends(id)] && Init(Init(Init(steps))) == [];
    assert After(s, []) == s;
    var ended := After(s, [Ends(id)]);
    assert ended == Next(s, Ends(id));
    var waited := After(s, Init(steps));
    assert waited == Next(ended, Tick(wait)) && waited.Serve() == None;
    assert After(s, steps) == Next(waited, Begin);
  }

  lemma {:induction false} EntryKnown(s: State, steps: seq<Step>, n: nat)
    requires n <= |steps| && s.cache.None? && At(s, steps, n).cache.Some?
    ensures Known(At(s, steps, n).cache.value.value)
  {
    assert steps[..0] == [];
    AtNext(s, steps, n - 1);
    if At(s, steps, n - 1).cache.Some? {
      EntryKnown(s, steps, n - 1);
    }
  }

  /** A row other than the current one can only have been read before. */
  lemma {:induction false} InFlight(s: State, steps: seq<Step>, n: nat, id: nat, row: Option<string>)
    requires n <= |steps| && NoSave(steps) && At(s, steps, n).Is(id, HasRead(row))
    ensures At(s, steps, n).row == s.row
    ensures row != s.row ==> s.Is(id, HasRead(row))
  {
    if n == 0 {
      assert steps[..0] == [];
    } else {
      AtNext(s, steps, n - 1);
      RowUnchanged(s, steps, n - 1);
      if At(s, steps, n - 1).Is(id, HasRead(row)) {
        InFlight(s, steps, n - 1, id, row);
      }
    }
  }

  lemma {:induction false} RowUnchanged(s: State, steps: seq<Step>, n: nat)
    requires n <= |steps| && NoSave(steps)
    ensures At(s, steps, n).row == s.row
  {
    if n == 0 {
      assert steps[..0] == [];
    } else {
      AtNext(s, steps, n - 1);
      RowUnchanged(s, steps, n - 1);
    }
  }
}
