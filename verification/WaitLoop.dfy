/** The completion waits of one turn: what a single pass of `run_turn`'s poll loop makes of the world, the
    runs of the loop, and what holds of every run in every world. */
module WaitLoop {
  import opened Text
  import opened Narration
  import opened SandboxExec

  const ACTIVITY_CHUNK_SECONDS := 300.0

  datatype Sighting = Done | Dead | Pending | Thrown(failure: Failure)

  datatype Plan = Plan(streaming: bool, deadline: real, pollSeconds: real) {
    /** How long the host waits for the next poll at most. */
    function Bound(clock: real): real {
      Max(Min(deadline - clock, if streaming then pollSeconds else ACTIVITY_CHUNK_SECONDS) + 30.0, 0.0)
    }
  }

  /** The bytes a poll hands to the streamer. */
  function NewBytes(w: World, offset: nat, plan: Plan): seq<Byte> {
    if w.Intact(plan.streaming, plan.Bound(w.clock)) then Tail(w.AtRead().out, offset) else []
  }

  /** What one poll amounts to: a DONE whose read hit the cap is not the end yet. */
  function Look(w: World, offset: nat, plan: Plan): (seen: Sighting)
    ensures seen.Pending? ==> w.script != []
  {
    var bound := Some(plan.Bound(w.clock));
    if w.Fails(bound).Some? then Thrown(w.Fails(bound).value)
    else if w.script[0].outcome.NotOk? then Pending
    else if w.AfterExec(bound).exitFile then
      if |NewBytes(w, offset, plan)| < MAX_TAIL_BYTES then Done else Pending
    else if w.script[0].dead then Dead
    else Pending
  }

  /** One pass of the loop: the world before it, where it reads from, what it reads and sees. */
  datatype Round = Round(before: World, offset: nat, bytes: seq<Byte>, seen: Sighting, entry: Entry, after: World)

  ghost function RoundOf(w: World, offset: nat, plan: Plan): Round {
    var bound := plan.Bound(w.clock);
    Round(w, offset, NewBytes(w, offset, plan), Look(w, offset, plan),
          PollEntry(w, offset, plan.streaming, bound), w.AfterExec(Some(bound)))
  }

  ghost predicate IsRound(r: Round, plan: Plan) {
    plan.deadline - r.before.clock > 0.0 && r == RoundOf(r.before, r.offset, plan)
  }

  ghost function Entries(rounds: seq<Round>): seq<Entry> {
    seq(|rounds|, i requires 0 <= i < |rounds| => rounds[i].entry)
  }

  ghost function Reads(rounds: seq<Round>): seq<seq<Byte>> {
    seq(|rounds|, i requires 0 <= i < |rounds| => rounds[i].bytes)
  }

  /** From `w` and `offset` the rounds `past` lead to `here` and `at`, and none of them ended the loop. */
  ghost predicate Passed(past: seq<Round>, w: World, offset: nat, plan: Plan, here: World, at: nat)
    decreases |past|
  {
    if past == [] then here == w && at == offset
    else
      var r := Last(past);
      && IsRound(r, plan) && r.seen.Pending? && here == r.after && at == r.offset + |r.bytes|
      && Passed(Init(past), w, offset, plan, r.before, r.offset)
  }

  /** A run of the loop: from `start` and `offset` it goes through `rounds`, and stands at `end` and `at` when
      it is over, because the time is up (no verdict) or with what the last round saw. */
  datatype Run = Run(rounds: seq<Round>, start: World, offset: nat, plan: Plan, end: World, at: nat, verdict: Option<Sighting>)
  {
    ghost predicate Ok() {
      && Passed(Before(), start, offset, plan, Here(), ReadUpTo())
      && match verdict
         case None => plan.deadline - end.clock <= 0.0
         case Some(seen) =>
           && rounds != [] && IsRound(Last(rounds), plan) && !seen.Pending?
           && seen == Last(rounds).seen && end == Last(rounds).after && at == Last(rounds).offset + |Last(rounds).bytes|
    }

    /** The rounds that left the loop going, and where it stood after them. */
    ghost function Before(): seq<Round> {
      if verdict.None? || rounds == [] then rounds else Init(rounds)
    }

    ghost function Here(): World {
      if verdict.None? || rounds == [] then end else Last(rounds).before
    }

    ghost function ReadUpTo(): nat {
      if verdict.None? || rounds == [] then at else Last(rounds).offset
    }

    ghost function Log(): seq<Entry> {
      Entries(rounds)
    }

    /** The text that the streamer makes of the reads of this run. */
    ghost function Text(decode: Decode): string {
      Decoded(decode, Reads(rounds))
    }
  }

  /** Where one more round leaves the loop: still going, or over. */
  ghost predicate Onwards(now: seq<Round>, w: World, offset: nat, plan: Plan, here: World, at: nat, seen: Sighting) {
    if seen.Pending? then Passed(now, w, offset, plan, here, at) else Run(now, w, offset, plan, here, at, Some(seen)).Ok()
  }

  lemma RoundsNext(past: seq<Round>, w: World, offset: nat, plan: Plan, r: Round, here: World, at: nat, seen: Sighting)
    requires Passed(past, w, offset, plan, r.before, r.offset) && IsRound(r, plan)
    requires here == r.after && at == r.offset + |r.bytes| && seen == r.seen
    ensures Onwards(past + [r], w, offset, plan, here, at, seen)
  {
    assert Init(past + [r]) == past && Last(past + [r]) == r;
  }

  lemma SameRound(p: Round, q: Round, plan: Plan)
    requires IsRound(p, plan) && IsRound(q, plan) && p.before == q.before && p.offset == q.offset
    ensures p == q
  {
  }

  lemma {:induction false} PassedUnique(a: seq<Round>, b: seq<Round>, w: World, offset: nat, plan: Plan,
                                        here: World, at: nat, here': World, at': nat)
    requires Passed(a, w, offset, plan, here, at) && Passed(b, w, offset, plan, here', at') && |a| == |b|
    ensures a == b && here == here' && at == at'
    decreases |a|
  {
    if a != [] {
      var p, q := Last(a), Last(b);
      PassedUnique(Init(a), Init(b), w, offset, plan, p.before, p.offset, q.before, q.offset);
      SameRound(p, q, plan);
      SameParts(a, b);
    }
  }

  lemma SameParts<T>(a: seq<T>, b: seq<T>)
    requires a != [] && b != [] && Init(a) == Init(b) && Last(a) == Last(b)
    ensures a == b
  {
    assert a == Init(a) + [Last(a)] && b == Init(b) + [Last(b)];
  }

  lemma {:induction false} PassedAt(past: seq<Round>, w: World, offset: nat, plan: Plan, here: World, at: nat, i: nat)
    requires Passed(past, w, offset, plan, here, at) && i < |past|
    ensures IsRound(past[i], plan) && past[i].seen.Pending?
    ensures Passed(past[..i], w, offset, plan, past[i].before, past[i].offset)
    decreases |past|
  {
    if i + 1 < |past| {
      PassedAt(Init(past), w, offset, plan, Last(past).before, Last(past).offset, i);
      assert Init(past)[..i] == past[..i];
    }
  }

  /** A run that is over is not continued by another one. */
  lemma OverIsOver(a: Run, past: seq<Round>, here: World, at: nat)
    requires a.Ok() && Passed(past, a.start, a.offset, a.plan, here, at)
    ensures |past| <= |a.Before()|
  {
    var n := |a.Before()|;
    if n < |past| {
      PassedAt(past, a.start, a.offset, a.plan, here, at, n);
      PassedUnique(a.Before(), past[..n], a.start, a.offset, a.plan, a.Here(), a.ReadUpTo(), past[n].before, past[n].offset);
      assert false;
    }
  }

  lemma SameEnd(a: seq<Round>, b: seq<Round>, plan: Plan)
    requires a != [] && b != [] && Init(a) == Init(b) && IsRound(Last(a), plan) && IsRound(Last(b), plan)
    requires Last(a).before == Last(b).before && Last(a).offset == Last(b).offset
    ensures a == b
  {
    SameRound(Last(a), Last(b), plan);
    SameParts(a, b);
  }

  /** The world determines the run: how it ends, where it stands then, and every round of it. */
  lemma RunUnique(a: Run, b: Run)
    requires a.Ok() && b.Ok() && a.start == b.start && a.offset == b.offset && a.plan == b.plan
    ensures a == b
  {
    OverIsOver(a, b.Before(), b.Here(), b.ReadUpTo());
    OverIsOver(b, a.Before(), a.Here(), a.ReadUpTo());
    PassedUnique(a.Before(), b.Before(), a.start, a.offset, a.plan, a.Here(), a.ReadUpTo(), b.Here(), b.ReadUpTo());
    if a.verdict.Some? && b.verdict.Some? {
      SameEnd(a.rounds, b.rounds, a.plan);
    }
  }

  /** What holds of every single round that starts inside the output. */
  ghost predicate Sane(r: Round, plan: Plan) {
    && r.before.LeadsTo(r.after) && r.offset + |r.bytes| <= |r.after.out|
    && r.after.clock <= plan.deadline + 30.0
    && (r.seen.Done? ==> r.after.exitFile) && (r.seen.Dead? ==> !r.after.exitFile)
    && r.entry.Polled? && r.entry.offset == r.offset && r.entry.exitedBefore == r.before.exitFile
    && (r.before.exitFile ==> r.entry.exitedAtRead)
    && (r.entry.intact && r.entry.exitedAtRead && r.seen.Done? ==> r.offset + |r.bytes| == |r.after.out|)
    && (r.before.exitFile && r.seen.Pending? && r.entry.intact ==> |r.bytes| == MAX_TAIL_BYTES)
    && (!r.entry.intact ==> r.bytes == [])
  }

  /** A round only ever reads on where the one before it stopped. */
  lemma ReadsInside(w: World, offset: nat, plan: Plan)
    requires offset <= |w.out|
    ensures w.out[..offset] + NewBytes(w, offset, plan) <= w.AfterExec(Some(plan.Bound(w.clock))).out
  {
    ExecLeads(w, Some(plan.Bound(w.clock)));
    assert w.AtRead().out[..offset] == w.out[..offset];
  }

  lemma RoundIsSane(r: Round, plan: Plan)
    requires IsRound(r, plan) && r.offset <= |r.before.out|
    ensures Sane(r, plan)
  {
    ExecLeads(r.before, Some(plan.Bound(r.before.clock)));
    assert r.before.AtRead().out[..r.offset] == r.before.out[..r.offset];
  }

  /** What is left of `Passed` when each round is only known to be sane. */
  ghost predicate Path(past: seq<Round>, w: World, offset: nat, plan: Plan, here: World, at: nat)
    decreases |past|
  {
    if past == [] then here == w && at == offset
    else
      var r := Last(past);
      && Sane(r, plan) && r.seen.Pending? && here == r.after && at == r.offset + |r.bytes|
      && Path(Init(past), w, offset, plan, r.before, r.offset)
  }

  lemma {:induction false} PathLeads(past: seq<Round>, w: World, offset: nat, plan: Plan, here: World, at: nat)
    requires Path(past, w, offset, plan, here, at) && offset <= |w.out|
    ensures w.LeadsTo(here) && offset <= at <= |here.out| && here.clock <= Max(w.clock, plan.deadline + 30.0)
    decreases |past|
  {
    if past != [] {
      PathLeads(Init(past), w, offset, plan, Last(past).before, Last(past).offset);
    }
  }

  lemma {:induction false} PassedIsPath(past: seq<Round>, w: World, offset: nat, plan: Plan, here: World, at: nat)
    requires Passed(past, w, offset, plan, here, at) && offset <= |w.out|
    ensures Path(past, w, offset, plan, here, at)
    decreases |past|
  {
    if past != [] {
      var r := Last(past);
      PassedIsPath(Init(past), w, offset, plan, r.before, r.offset);
      PathLeads(Init(past), w, offset, plan, r.before, r.offset);
      RoundIsSane(r, plan);
    }
  }

  /** The rounds before the one that ended the loop, and that one. */
  lemma RunIsPath(run: Run)
    requires run.Ok() && run.offset <= |run.start.out|
    ensures Path(run.Before(), run.start, run.offset, run.plan, run.Here(), run.ReadUpTo())
    ensures run.verdict.Some? ==> Sane(Last(run.rounds), run.plan) && run.ReadUpTo() <= |run.Here().out|
  {
    PassedIsPath(run.Before(), run.start, run.offset, run.plan, run.Here(), run.ReadUpTo());
    PathLeads(run.Before(), run.start, run.offset, run.plan, run.Here(), run.ReadUpTo());
    if run.verdict.Some? {
      RoundIsSane(Last(run.rounds), run.plan);
    }
  }

  /** What every run keeps: the output only grows, the offset stays inside it, DONE is only seen with the
      exit file there and DEAD without it, and the waits end within 30 seconds of the deadline. */
  lemma WaitEnds(run: Run)
    requires run.Ok() && run.offset <= |run.start.out|
    ensures run.start.LeadsTo(run.end) && run.offset <= run.at <= |run.end.out|
    ensures (run.verdict == Some(Done) ==> run.end.exitFile) && (run.verdict == Some(Dead) ==> !run.end.exitFile)
    ensures run.verdict != Some(Pending)
    ensures run.end.clock <= Max(run.start.clock, run.plan.deadline + 30.0)
  {
    RunIsPath(run);
    PathLeads(run.Before(), run.start, run.offset, run.plan, run.Here(), run.ReadUpTo());
  }

  /** The last tail was read after the exit file had appeared, and it arrived undamaged. */
  predicate CompleteRead(polls: seq<Entry>) {
    polls != [] && Last(polls).Polled? && Last(polls).intact && Last(polls).exitedAtRead
  }

  /** A DONE whose last read was complete leaves nothing unread. */
  lemma CompleteReadIsWhole(run: Run)
    requires run.Ok() && run.offset <= |run.start.out| && run.verdict == Some(Done) && CompleteRead(run.Log())
    ensures run.at == |run.end.out|
  {
    RunIsPath(run);
    assert Last(run.Log()) == Last(run.rounds).entry;
  }

  lemma ReadsNext(past: seq<Round>, r: Round)
    ensures Reads(past + [r]) == Reads(past) + [r.bytes] && Flat(Reads(past + [r])) == Flat(Reads(past)) + r.bytes
  {
    var reads_ := Reads(past) + [r.bytes];
    assert Init(reads_) == Reads(past) && Last(reads_) == r.bytes;
  }

  /** A round reads on where it starts. */
  ghost predicate ReadsOn(r: Round) {
    r.offset <= |r.before.out| && r.before.out[..r.offset] + r.bytes <= r.after.out
  }

  /** One more read lengthens the stretch that has been read. */
  lemma StretchGrows(past: seq<Round>, r: Round, base: seq<Byte>)
    requires ReadsOn(r) && base + Flat(Reads(past)) == r.before.out[..r.offset]
    ensures r.offset + |r.bytes| <= |r.after.out|
    ensures base + Flat(Reads(past + [r])) == r.after.out[..r.offset + |r.bytes|]
  {
    ReadsNext(past, r);
    Associative(base, Flat(Reads(past)), r.bytes);
  }

  lemma RoundReads(r: Round, plan: Plan)
    requires IsRound(r, plan) && r.offset <= |r.before.out|
    ensures ReadsOn(r)
  {
    ReadsInside(r.before, r.offset, plan);
  }

  lemma {:induction false} PassedReadsOn(past: seq<Round>, w: World, offset: nat, plan: Plan, here: World, at: nat)
    requires Passed(past, w, offset, plan, here, at) && offset <= |w.out|
    ensures at <= |here.out| && forall i | 0 <= i < |past| :: ReadsOn(past[i])
    decreases |past|
  {
    if past != [] {
      PassedReadsOn(Init(past), w, offset, plan, Last(past).before, Last(past).offset);
      RoundReads(Last(past), plan);
      assert forall i | 0 <= i < |past| - 1 :: past[i] == Init(past)[i];
    }
  }

  /** The rounds read one stretch of the output, from where they started up to where they stand. */
  lemma {:induction false} PathReads(past: seq<Round>, w: World, offset: nat, plan: Plan, here: World, at: nat)
    requires Path(past, w, offset, plan, here, at) && offset <= |w.out| && at <= |here.out|
    requires forall i | 0 <= i < |past| :: ReadsOn(past[i])
    ensures w.out[..offset] + Flat(Reads(past)) == here.out[..at]
    decreases |past|
  {
    if past == [] {
      assert w.out[..offset] + [] == w.out[..offset];
    } else {
      var front, r := Init(past), Last(past);
      assert r == past[|past| - 1] && forall i | 0 <= i < |front| :: front[i] == past[i];
      PathReads(front, w, offset, plan, r.before, r.offset);
      StretchGrows(front, r, w.out[..offset]);
      assert past == front + [r];
    }
  }

  lemma PassedReads(past: seq<Round>, w: World, offset: nat, plan: Plan, here: World, at: nat)
    requires Passed(past, w, offset, plan, here, at) && offset <= |w.out|
    ensures at <= |here.out| && w.out[..offset] + Flat(Reads(past)) == here.out[..at]
  {
    PassedReadsOn(past, w, offset, plan, here, at);
    PassedIsPath(past, w, offset, plan, here, at);
    PathReads(past, w, offset, plan, here, at);
  }

  lemma RunReads(run: Run)
    requires run.Ok() && run.offset <= |run.start.out|
    ensures run.at <= |run.end.out| && run.start.out[..run.offset] + Flat(Reads(run.rounds)) == run.end.out[..run.at]
  {
    PassedReads(run.Before(), run.start, run.offset, run.plan, run.Here(), run.ReadUpTo());
    if run.verdict.Some? {
      RoundReads(Last(run.rounds), run.plan);
      StretchGrows(Init(run.rounds), Last(run.rounds), run.start.out[..run.offset]);
      assert run.rounds == Init(run.rounds) + [Last(run.rounds)];
    }
  }

  /** When the reads of a run from the start of the file cut it between characters, their text is the text of
      what was read, which the text of the file starts with; it is the whole text once everything was read. */
  lemma RunText(run: Run, decode: Decode)
    requires run.Ok() && run.offset == 0 && WholeCharacters(decode, Reads(run.rounds), run.end.out)
    ensures run.at <= |run.end.out| && run.Text(decode) == decode(run.end.out[..run.at])
    ensures run.Text(decode) <= decode(run.end.out)
    ensures run.at == |run.end.out| ==> run.Text(decode) == decode(run.end.out)
  {
    RunReads(run);
    assert run.start.out[..0] + Flat(Reads(run.rounds)) == Flat(Reads(run.rounds));
    WholeCharacterReads(decode, Reads(run.rounds), run.end.out);
    assert run.at == |run.end.out| ==> run.end.out[..run.at] == run.end.out;
  }

  // ---- what each exec makes of the loop ----

  /** The next exec is given up, or throws by itself, or is refused by the end of the script. */
  predicate Throws(w: World, plan: Plan) {
    || w.script == []
    || w.script[0].outcome.Raises?
    || w.script[0].seconds > Longest(w, plan)
  }

  /** How long it may take: the rest of the time, but no more than one poll interval, and 30 seconds. */
  function Longest(w: World, plan: Plan): real {
    var interval := if plan.streaming then plan.pollSeconds else ACTIVITY_CHUNK_SECONDS;
    var chunk := if plan.deadline - w.clock < interval then plan.deadline - w.clock else interval;
    if chunk + 30.0 < 0.0 then 0.0 else chunk + 30.0
  }

  /** It comes back with exit code 0. */
  predicate ComesBack(w: World, plan: Plan) {
    !Throws(w, plan) && !w.script[0].outcome.NotOk?
  }

  /** The exit file is there when the status is checked. */
  predicate ExitsBy(w: World)
    requires w.script != []
  {
    w.exitFile || w.script[0].exitsEarly || w.script[0].exitsLate
  }

  /** A process is found dead: gone, without an exit file. */
  predicate FindsDead(w: World, plan: Plan) {
    ComesBack(w, plan) && w.script[0].dead && !ExitsBy(w)
  }

  /** The tail read of a poll hits the cap. */
  predicate HitsCap(w: World, offset: nat, plan: Plan)
    requires w.script != []
  {
    && plan.streaming && w.script[0].outcome.Fine?
    && |w.out| + (if w.exitFile then 0 else |w.script[0].early|) >= offset + MAX_TAIL_BYTES
  }

  predicate FindsExit(w: World, offset: nat, plan: Plan) {
    ComesBack(w, plan) && ExitsBy(w) && !HitsCap(w, offset, plan)
  }

  /** What is thrown: an end of the script cancels, and a wait that takes too long times out. */
  function ThrownBy(w: World, plan: Plan): Failure
    requires Throws(w, plan)
  {
    if w.script == [] then Cancelled
    else if w.script[0].seconds > Longest(w, plan) then TimedOut
    else w.script[0].outcome.failure
  }

  lemma RoundSees(r: Round, plan: Plan)
    requires IsRound(r, plan)
    ensures r.seen.Thrown? <==> Throws(r.before, plan)
    ensures r.seen.Thrown? ==> r.seen.failure == ThrownBy(r.before, plan)
    ensures r.seen.Dead? <==> FindsDead(r.before, plan)
    ensures r.seen.Done? <==> FindsExit(r.before, r.offset, plan)
  {
  }

  /** The bytes it reads: from the offset on, at most the cap, as the output stands at the tail read; nothing if
      the poll does not come back whole. */
  lemma RoundBytes(r: Round, plan: Plan)
    requires IsRound(r, plan)
    ensures var w, whole := r.before, plan.streaming && ComesBack(r.before, plan) && r.before.script[0].outcome.Fine?;
            && (!whole ==> r.bytes == [])
            && (whole ==>
                  var out := w.out + if w.exitFile then [] else w.script[0].early;
                  && |r.bytes| == (if |out| <= r.offset then 0
                                   else if |out| - r.offset <= MAX_TAIL_BYTES then |out| - r.offset else MAX_TAIL_BYTES)
                  && forall i | 0 <= i < |r.bytes| :: r.bytes[i] == out[r.offset + i])
  {
  }

  /** A round that goes on: its exec came back or failed, the process lives or has more to read. */
  predicate GoesOn(w: World, offset: nat, plan: Plan) {
    !Throws(w, plan) && !FindsDead(w, plan) && !FindsExit(w, offset, plan)
  }

  /** In a run, every round but the last goes on, and so does the last if the time is then up.  A round ends the
      run exactly with what its exec found: a throw, an exit whose output was read up, or a dead process. */
  lemma RoundVerdicts(run: Run, i: nat)
    requires run.Ok() && i < |run.rounds|
    ensures var w, ends := run.rounds[i].before, i + 1 == |run.rounds| && run.verdict.Some?;
            && w.clock < run.plan.deadline
            && (ends <==> !GoesOn(w, run.rounds[i].offset, run.plan))
            && (ends && run.verdict == Some(Dead) <==> FindsDead(w, run.plan))
            && (ends && run.verdict == Some(Done) <==> FindsExit(w, run.rounds[i].offset, run.plan))
            && (ends && run.verdict.value.Thrown? <==> Throws(w, run.plan))
            && (Throws(w, run.plan) ==> run.verdict == Some(Thrown(ThrownBy(w, run.plan))))
    ensures run.verdict.None? ==> run.end.clock >= run.plan.deadline
  {
    var r := run.rounds[i];
    if i < |run.Before()| {
      PassedAt(run.Before(), run.start, run.offset, run.plan, run.Here(), run.ReadUpTo(), i);
      assert run.Before()[i] == r;
    }
    RoundSees(r, run.plan);
  }

  // ---- catching up ----

  /** The undamaged polls in a log. */
  function Intacts(polls: seq<Entry>): (n: nat)
    ensures n <= |polls|
  {
    if polls == [] then 0 else Intacts(Init(polls)) + if Last(polls).Polled? && Last(polls).intact then 1 else 0
  }

  /** The same for the rounds from `i` on. */
  ghost function IntactsFrom(past: seq<Round>, i: nat): nat {
    if |past| <= i then 0
    else IntactsFrom(Init(past), i) + if Last(past).entry.Polled? && Last(past).entry.intact then 1 else 0
  }

  lemma {:induction false} IntactsInLog(past: seq<Round>, i: nat)
    requires i <= |past|
    ensures IntactsFrom(past, i) == Intacts(Entries(past)[i..])
  {
    if i < |past| {
      IntactsInLog(Init(past), i);
      assert Init(Entries(past)[i..]) == Entries(Init(past))[i..];
    }
  }

  /** The bytes of `n` reads that each hit the cap. */
  ghost function FullReads(n: nat): nat {
    if n == 0 then 0 else FullReads(n - 1) + MAX_TAIL_BYTES
  }

  /** How many undamaged polls it takes to read that much: as many full caps as fit, and one more. */
  function PollsFor(unread: nat): (n: nat)
    ensures n >= 1
  {
    if unread < MAX_TAIL_BYTES then 1 else 1 + PollsFor(unread - MAX_TAIL_BYTES)
  }

  lemma {:induction false} PollsForIs(unread: nat)
    ensures PollsFor(unread) == unread / MAX_TAIL_BYTES + 1
  {
    if unread >= MAX_TAIL_BYTES {
      PollsForIs(unread - MAX_TAIL_BYTES);
    }
  }

  lemma {:induction false} PollsForMore(less: nat, more: nat)
    requires less <= more
    ensures PollsFor(less) <= PollsFor(more)
  {
    if less >= MAX_TAIL_BYTES {
      PollsForMore(less - MAX_TAIL_BYTES, more - MAX_TAIL_BYTES);
    }
  }

  lemma {:induction false} FullReadsFit(n: nat, unread: nat)
    requires FullReads(n) <= unread
    ensures n < PollsFor(unread)
  {
    if n > 0 {
      FullReadsFit(n - 1, unread - MAX_TAIL_BYTES);
    }
  }

  /** What a round that leaves the loop going adds, once the exit file is there. */
  lemma CapsNext(r: Round, plan: Plan, start: nat, n: nat)
    requires Sane(r, plan) && r.before.exitFile && r.seen.Pending? && start + FullReads(n) == r.offset
    ensures start + FullReads(n + if r.entry.Polled? && r.entry.intact then 1 else 0) == r.offset + |r.bytes|
  {
  }

  /** From a poll on that began with the exit file, every undamaged poll that does not end the loop has read a
      full cap of the final output. */
  lemma {:induction false} PathCaps(past: seq<Round>, w: World, offset: nat, plan: Plan, here: World, at: nat, i: nat)
    requires Path(past, w, offset, plan, here, at) && offset <= |w.out|
    requires i < |past| && past[i].before.exitFile
    ensures here.exitFile && here.out == past[i].before.out
    ensures past[i].offset + FullReads(IntactsFrom(past, i)) == at
    decreases |past|
  {
    var r := Last(past);
    if i + 1 < |past| {
      PathCaps(Init(past), w, offset, plan, r.before, r.offset, i);
    }
    CapsNext(r, plan, past[i].offset, IntactsFrom(Init(past), i));
  }

  lemma PathCatchUp(past: seq<Round>, w: World, offset: nat, plan: Plan, here: World, at: nat, i: nat)
    requires Path(past, w, offset, plan, here, at) && offset <= |w.out|
    requires i < |past| && past[i].before.exitFile
    ensures here.exitFile && here.out == past[i].before.out && past[i].offset <= |here.out|
    ensures IntactsFrom(past, i) < PollsFor(|here.out| - past[i].offset)
  {
    PathLeads(past, w, offset, plan, here, at);
    PathCaps(past, w, offset, plan, here, at, i);
    FullReadsFit(IntactsFrom(past, i), |here.out| - past[i].offset);
  }

  lemma LastCatchUp(past: seq<Round>, w: World, offset: nat, plan: Plan, r: Round, i: nat)
    requires Path(past, w, offset, plan, r.before, r.offset) && offset <= |w.out| && Sane(r, plan) && i <= |past|
    requires (if i < |past| then past[i] else r).before.exitFile
    ensures var from, out := (if i < |past| then past[i] else r).offset, r.after.out;
            from <= |out| && IntactsFrom(past, i) < PollsFor(|out| - from)
  {
    PathLeads(past, w, offset, plan, r.before, r.offset);
    if i < |past| {
      PathCatchUp(past, w, offset, plan, r.before, r.offset, i);
    }
  }

  lemma {:induction false} PathRound(past: seq<Round>, w: World, offset: nat, plan: Plan, here: World, at: nat, i: nat)
    requires Path(past, w, offset, plan, here, at) && offset <= |w.out| && i < |past|
    ensures Sane(past[i], plan) && offset <= past[i].offset
    decreases |past|
  {
    var r := Last(past);
    PathLeads(Init(past), w, offset, plan, r.before, r.offset);
    if i + 1 < |past| {
      PathRound(Init(past), w, offset, plan, r.before, r.offset, i);
    }
  }

  /** The log tells which polls began with the exit file, and from which offset. */
  lemma RunLog(run: Run, i: nat)
    requires run.Ok() && run.offset <= |run.start.out| && i < |run.rounds|
    ensures var e, r := run.Log()[i], run.rounds[i];
            e.Polled? && e.offset == r.offset && e.exitedBefore == r.before.exitFile
  {
    RunIsPath(run);
    if i < |run.Before()| {
      PathRound(run.Before(), run.start, run.offset, run.plan, run.Here(), run.ReadUpTo(), i);
      assert run.Before()[i] == run.rounds[i];
    }
  }

  lemma EndedCatchUp(run: Run, i: nat, from: nat)
    requires run.Ok() && run.offset <= |run.start.out|
    requires i < |run.rounds| && run.rounds[i].before.exitFile && run.rounds[i].offset == from
    ensures from <= |run.end.out| && IntactsFrom(run.rounds, i) <= PollsFor(|run.end.out| - from)
  {
    var past := run.Before();
    RunIsPath(run);
    if run.verdict.None? {
      PathCatchUp(past, run.start, run.offset, run.plan, run.end, run.at, i);
    } else {
      assert i < |past| ==> past[i] == run.rounds[i];
      LastCatchUp(past, run.start, run.offset, run.plan, Last(run.rounds), i);
    }
  }

  /** Once the exit file is there, at most `unread / cap + 1` undamaged polls follow: `polls` is the rest of the
      log from any poll on that began with the exit file, and what was unread then is the final output from
      that poll's offset on. */
  lemma CatchUpBound(run: Run, i: nat, polls: seq<Entry>)
    requires run.Ok() && run.offset <= |run.start.out| && i < |run.rounds| && run.Log()[i..] == polls
    requires polls[0].Polled? && polls[0].exitedBefore
    ensures polls[0].offset <= |run.end.out| && Intacts(polls) <= PollsFor(|run.end.out| - polls[0].offset)
  {
    var from := polls[0].offset;
    RunLog(run, i);
    EndedCatchUp(run, i, from);
    IntactsInLog(run.rounds, i);
  }

  lemma RunIssuesPolls(run: Run)
    requires run.Ok() && run.offset <= |run.start.out|
    ensures forall i | 0 <= i < |run.Log()| :: run.Log()[i].Polled?
  {
    forall i | 0 <= i < |run.Log()|
      ensures run.Log()[i].Polled?
    {
      RunLog(run, i);
    }
  }

  // ---- the loop does end ----

  /** The next `n` polls each start before the deadline and come back undamaged within 30 seconds, and a process
      that one of them finds dead has exited. */
  predicate Smooth(w: World, plan: Plan, n: nat)
    decreases n
  {
    n == 0 ||
      (&& w.script != [] && plan.deadline - w.clock > 0.0 && plan.pollSeconds >= 0.0
       && w.script[0].outcome.Fine? && w.script[0].seconds <= 30.0 && (w.script[0].dead ==> w.AfterExec(None).exitFile)
       && Smooth(w.AfterExec(None), plan, n - 1))
  }

  lemma SmoothRound(r: Round, plan: Plan, n: nat)
    requires IsRound(r, plan) && n > 0 && Smooth(r.before, plan, n)
    ensures r.after == r.before.AfterExec(None) && Smooth(r.after, plan, n - 1)
    ensures r.entry.Polled? && (plan.streaming ==> r.entry.intact) && (r.seen.Done? || r.seen.Pending?)
    ensures !plan.streaming && r.seen.Pending? ==> !r.after.exitFile
  {
    assert r.before.script[0].seconds <= 30.0 <= plan.Bound(r.before.clock);
    assert r.after == r.before.AfterExec(None);
  }

  /** The world after the next `k` polls, if none of them is given up. */
  function Later(w: World, k: nat): World {
    if k == 0 then w else Later(w, k - 1).AfterExec(None)
  }

  lemma {:induction false} LaterLeads(w: World, k: nat)
    ensures w.LeadsTo(Later(w, k))
  {
    if k > 0 {
      LaterLeads(w, k - 1);
      ExecLeads(Later(w, k - 1), None);
    }
  }

  /** Each round takes the world one step on, and is undamaged if it reads a tail. */
  ghost predicate InStep(past: seq<Round>, w: World, plan: Plan) {
    forall i | 0 <= i < |past| ::
      past[i].before == Later(w, i) && past[i].entry.Polled? && (plan.streaming ==> past[i].entry.intact)
  }

  lemma InStepNext(past: seq<Round>, w: World, plan: Plan)
    requires past != [] && InStep(Init(past), w, plan) && Last(past).before == Later(w, |Init(past)|)
    requires Last(past).entry.Polled? && (plan.streaming ==> Last(past).entry.intact)
    ensures InStep(past, w, plan)
  {
    assert forall i | 0 <= i < |past| - 1 :: past[i] == Init(past)[i];
  }

  lemma LaterNext(w: World, k: nat, here: World)
    requires here == Later(w, k).AfterExec(None)
    ensures here == Later(w, k + 1)
  {
  }

  /** Each round starts where the one before it ended. */
  ghost predicate Linked(past: seq<Round>, w: World, here: World, plan: Plan)
    decreases |past|
  {
    if past == [] then here == w
    else IsRound(Last(past), plan) && here == Last(past).after && Linked(Init(past), w, Last(past).before, plan)
  }

  lemma {:induction false} PassedIsLinked(past: seq<Round>, w: World, offset: nat, plan: Plan, here: World, at: nat)
    requires Passed(past, w, offset, plan, here, at)
    ensures Linked(past, w, here, plan)
    decreases |past|
  {
    if past != [] {
      PassedIsLinked(Init(past), w, offset, plan, Last(past).before, Last(past).offset);
    }
  }

  lemma {:induction false} StaysSmooth(past: seq<Round>, w: World, plan: Plan, here: World, n: nat)
    requires Linked(past, w, here, plan) && |past| <= n && Smooth(w, plan, n)
    ensures Smooth(here, plan, n - |past|)
    decreases |past|
  {
    if past != [] {
      StaysSmooth(Init(past), w, plan, Last(past).before, n);
      SmoothRound(Last(past), plan, n - |past| + 1);
    }
  }

  lemma {:induction false} StaysInStep(past: seq<Round>, w: World, plan: Plan, here: World, n: nat)
    requires Linked(past, w, here, plan) && |past| <= n && Smooth(w, plan, n)
    ensures here == Later(w, |past|) && InStep(past, w, plan)
    decreases |past|
  {
    if past != [] {
      var front, r := Init(past), Last(past);
      StaysInStep(front, w, plan, r.before, n);
      StaysSmooth(front, w, plan, r.before, n);
      SmoothRound(r, plan, n - |front|);
      LaterNext(w, |front|, here);
      InStepNext(past, w, plan);
    }
  }

  /** While polls go smoothly. */
  lemma SmoothPassed(past: seq<Round>, w: World, offset: nat, plan: Plan, here: World, at: nat, n: nat)
    requires Passed(past, w, offset, plan, here, at) && |past| <= n && Smooth(w, plan, n)
    ensures here == Later(w, |past|) && InStep(past, w, plan) && Smooth(here, plan, n - |past|)
  {
    PassedIsLinked(past, w, offset, plan, here, at);
    StaysInStep(past, w, plan, here, n);
    StaysSmooth(past, w, plan, here, n);
  }

  lemma {:induction false} AllIntact(past: seq<Round>, i: nat)
    requires i <= |past| && forall j | i <= j < |past| :: past[j].entry.Polled? && past[j].entry.intact
    ensures IntactsFrom(past, i) == |past| - i
  {
    if i < |past| {
      assert forall j | i <= j < |past| - 1 :: Init(past)[j] == past[j];
      AllIntact(Init(past), i);
    }
  }

  /** So many smooth polls cannot all leave the loop going: they would have read more than there is. */
  lemma TooManyPolls(past: seq<Round>, w: World, offset: nat, plan: Plan, here: World, at: nat, k: nat)
    requires Path(past, w, offset, plan, here, at) && offset <= |w.out| && plan.streaming && InStep(past, w, plan)
    requires k < |past| && Later(w, k).exitFile
    ensures offset <= |Later(w, k).out| && |past| < k + PollsFor(|Later(w, k).out| - offset)
  {
    AllIntact(past, k);
    PathRound(past, w, offset, plan, here, at, k);
    PathCatchUp(past, w, offset, plan, here, at, k);
    PollsForMore(|here.out| - past[k].offset, |here.out| - offset);
  }

  lemma {:induction false} PassedPrefix(past: seq<Round>, w: World, offset: nat, plan: Plan, here: World, at: nat, n: nat)
    returns (mid: World, midAt: nat)
    requires Passed(past, w, offset, plan, here, at) && n <= |past|
    ensures Passed(past[..n], w, offset, plan, mid, midAt)
    decreases |past|
  {
    if n == |past| {
      assert past[..n] == past;
      mid, midAt := here, at;
    } else {
      var r := Last(past);
      mid, midAt := PassedPrefix(Init(past), w, offset, plan, r.before, r.offset, n);
      assert Init(past)[..n] == past[..n];
    }
  }

  /** So fewer than `n` rounds leave the loop going. */
  lemma FewRounds(past: seq<Round>, w: World, offset: nat, plan: Plan, here: World, at: nat, k: nat, n: nat)
    requires Passed(past, w, offset, plan, here, at) && offset <= |w.out| && plan.streaming
    requires Smooth(w, plan, n) && k < n && Later(w, k).exitFile
    requires offset <= |Later(w, k).out| && n >= k + PollsFor(|Later(w, k).out| - offset)
    ensures |past| < n
  {
    if |past| >= n {
      var end, endAt := PassedPrefix(past, w, offset, plan, here, at, n);
      SmoothPassed(past[..n], w, offset, plan, end, endAt, n);
      PassedIsPath(past[..n], w, offset, plan, end, endAt);
      TooManyPolls(past[..n], w, offset, plan, end, endAt, k);
      assert false;
    }
  }

  lemma QuietRound(past: seq<Round>, w: World, offset: nat, plan: Plan, r: Round, n: nat)
    requires Passed(past, w, offset, plan, r.before, r.offset) && !plan.streaming && n == |past| + 1
    requires IsRound(r, plan) && Smooth(w, plan, n) && Later(w, n).exitFile
    ensures !r.seen.Pending?
  {
    SmoothPassed(past, w, offset, plan, r.before, r.offset, n);
    SmoothRound(r, plan, 1);
    LaterNext(w, |past|, r.after);
  }

  /** Without a tail to read, no round that sees the exit file leaves the loop going. */
  lemma FewQuietRounds(past: seq<Round>, w: World, offset: nat, plan: Plan, here: World, at: nat, n: nat)
    requires Passed(past, w, offset, plan, here, at) && !plan.streaming && n > 0
    requires Smooth(w, plan, n) && Later(w, n).exitFile
    ensures |past| < n
  {
    if |past| >= n {
      PassedAt(past, w, offset, plan, here, at, n - 1);
      QuietRound(past[..n - 1], w, offset, plan, past[n - 1], n);
      assert false;
    }
  }

  lemma LastRound(r: Round, w: World, plan: Plan, m: nat, n: nat)
    requires m < n && IsRound(r, plan) && r.before == Later(w, m) && Smooth(r.before, plan, n - m)
    ensures r.after == Later(w, m + 1) && (r.seen.Done? || r.seen.Pending?)
    ensures r.entry.Polled? && (plan.streaming ==> r.entry.intact)
  {
    SmoothRound(r, plan, n - m);
    LaterNext(w, m, r.after);
  }

  /** The round after them ends the loop, with DONE. */
  lemma EndsDone(run: Run, n: nat)
    requires run.Ok() && |run.Before()| < n && Smooth(run.start, run.plan, n)
    ensures run.verdict == Some(Done) && |run.rounds| == |run.Before()| + 1
    ensures run.end == Later(run.start, |run.rounds|)
    ensures Last(run.rounds).entry.Polled? && (run.plan.streaming ==> Last(run.rounds).entry.intact)
  {
    var here, m := run.Here(), |run.Before()|;
    SmoothPassed(run.Before(), run.start, run.offset, run.plan, here, run.ReadUpTo(), n);
    if run.verdict.Some? {
      LastRound(Last(run.rounds), run.start, run.plan, m, n);
    }
  }

  /** While polls go smoothly, a turn that exits within `k` polls ends the loop with DONE: after at most `k`
      polls and those that the output still takes, the last of them undamaged. */
  lemma ReturnsDone(run: Run, k: nat, n: nat)
    requires run.Ok() && run.offset <= |run.start.out| && run.plan.streaming
    requires Smooth(run.start, run.plan, n) && k < n && Later(run.start, k).exitFile
    requires run.offset <= |Later(run.start, k).out|
    requires n >= k + PollsFor(|Later(run.start, k).out| - run.offset)
    ensures run.verdict == Some(Done) && 0 < |run.rounds| <= n && run.end == Later(run.start, |run.rounds|)
    ensures Last(run.rounds).entry.Polled? && Last(run.rounds).entry.intact
  {
    FewRounds(run.Before(), run.start, run.offset, run.plan, run.Here(), run.ReadUpTo(), k, n);
    EndsDone(run, n);
  }

  /** Without narration there is nothing to catch up with: the loop ends with the poll that sees the exit file. */
  lemma ReturnsDoneQuietly(run: Run, n: nat)
    requires run.Ok() && !run.plan.streaming && n > 0
    requires Smooth(run.start, run.plan, n) && Later(run.start, n).exitFile
    ensures run.verdict == Some(Done) && 0 < |run.rounds| <= n && run.end == Later(run.start, |run.rounds|)
  {
    FewQuietRounds(run.Before(), run.start, run.offset, run.plan, run.Here(), run.ReadUpTo(), n);
    EndsDone(run, n);
  }

  /** With the exit file there from the start, `unread / cap + 1` smooth polls are enough, and the whole
      output has been read. */
  lemma CatchesUp(run: Run)
    requires run.Ok() && run.start.exitFile && run.offset <= |run.start.out| && run.plan.streaming
    requires Smooth(run.start, run.plan, PollsFor(|run.start.out| - run.offset))
    ensures run.verdict == Some(Done) && |run.rounds| <= PollsFor(|run.start.out| - run.offset)
    ensures run.end.out == run.start.out && run.at == |run.start.out|
  {
    var n := PollsFor(|run.start.out| - run.offset);
    assert Later(run.start, 0) == run.start;
    ReturnsDone(run, 0, n);
    RunIsPath(run);
    PathLeads(run.Before(), run.start, run.offset, run.plan, run.Here(), run.ReadUpTo());
  }
}
