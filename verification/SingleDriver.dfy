/** The protocol of `_ReattachStateAgent`: at most one task drives a thread's graph, any number of
    requests subscribe to it.  Control changes hands only at an await, so every step below is atomic. */
module SingleDriver {
  import opened Text
  import opened RunActivity

  datatype Step =
    | Run(sessionId: string, attachOnly: bool)     // a request reaches `run`, up to its first await
    | StartResume(sessionId: string, heartbeat: bool)
    | Pinned(task: nat)                            // `pin_for_session` returns: incr
    | PinFails(task: nat)                          // cancelled or failed before that
    | Publishes(task: nat, item: Item)
    | Ends(task: nat)                              // finished, crashed or cancelled: the `finally` block
    | SnapshotTo(queue: nat)                       // a reattached request's own snapshot
    | Leaves(sessionId: string, queue: nat)        // a request generator ends

  function Next(s: State, e: Step): State {
    match e
    case Run(id, attachOnly) =>
      var key := Key(id);
      if s.Live(key) then s.Subscribe(key, [RunStarted])
      else if attachOnly then s
      else s.Subscribe(key, []).Spawn(key)
    case StartResume(id, heartbeat) =>
      var key := Key(id);
      if s.Live(key) || key in s.counts || heartbeat then s else s.Spawn(key)
    case Pinned(task) =>
      if s.Is(task, Created) then s.Become(task, Running).Incr(s.drivers[task].thread) else s
    case PinFails(task) => if s.Is(task, Created) then s.Become(task, Finished) else s
    case Publishes(task, item) =>
      if s.Is(task, Running) && item != Done then s.Publish(s.drivers[task].thread, item) else s
    case Ends(task) =>
      if s.Is(task, Running) then
        var key := s.drivers[task].thread;
        var ended := s.Become(task, Finished).Decr(key);
        ended.(tasks := ended.tasks - {key}).Publish(key, Done)
      else s
    case SnapshotTo(queue) => if queue < |s.queues| then s.Put([queue], Snapshot) else s
    case Leaves(id, queue) => s.Unsubscribe(Key(id), queue)
  }

  /** Unfinished drivers are registered under their thread; the refcount is 1 exactly for threads whose
      driver is past its pin; a queue is attached at most once, and only to its own thread. */
  ghost predicate Inv(s: State) {
    && (forall t | 0 <= t < |s.drivers| :: !s.drivers[t].phase.Finished? ==>
          s.drivers[t].thread in s.tasks && s.tasks[s.drivers[t].thread] == t)
    && (forall key | key in s.tasks :: s.tasks[key] < |s.drivers| && s.drivers[s.tasks[key]].thread == key)
    && (forall key | key in s.counts ::
          s.counts[key] == 1 && key in s.tasks && s.drivers[s.tasks[key]].phase == Running)
    && (forall t | 0 <= t < |s.drivers| :: s.drivers[t].phase == Running ==> s.drivers[t].thread in s.counts)
    && (forall key | key in s.subscribers :: NoDuplicates(s.subscribers[key]))
    && (forall key | key in s.subscribers :: Owned(s.subscribers[key], s.queues, key))
  }

  function Start(): State {
    State(map[], map[], [], map[], [])
  }

  function After(s: State, steps: seq<Step>): State
    decreases |steps|
  {
    if steps == [] then s else After(Next(s, steps[0]), steps[1..])
  }

  lemma {:induction false} WithoutKeeps(s: seq<nat>, x: nat)
    requires NoDuplicates(s)
    ensures NoDuplicates(Without(s, x)) && forall y :: y in Without(s, x) <==> y in s && y != x
  {
    if s != [] {
      var head, tail := s[0], s[1..];
      assert s == [head] + tail;
      assert head !in tail;
      if head != x {
        WithoutKeeps(tail, x);
        assert Without(s, x) == [head] + Without(tail, x);
      }
    }
  }

  lemma SubscribeKeepsInv(s: State, key: string, first: seq<Item>)
    requires Inv(s)
    ensures Inv(s.Subscribe(key, first))
  {
    var after := s.Subscribe(key, first);
    assert Owned(s.Attached(key), s.queues, key);
    assert NoDuplicates(after.subscribers[key]) && Owned(after.subscribers[key], after.queues, key);
    assert forall k | k in s.subscribers :: Owned(s.subscribers[k], after.queues, k);
  }

  lemma SpawnKeepsInv(s: State, key: string)
    requires Inv(s) && !s.Live(key)
    ensures Inv(s.Spawn(key))
  {
  }

  lemma UnsubscribeKeepsInv(s: State, key: string, queue: nat)
    requires Inv(s)
    ensures Inv(s.Unsubscribe(key, queue))
  {
    var attached := s.Attached(key);
    WithoutKeeps(attached, queue);
    assert Owned(attached, s.queues, key);
    var left := Without(attached, queue);
    forall i | 0 <= i < |left|
      ensures left[i] < |s.queues| && s.queues[left[i]].thread == key
    {
      assert left[i] in attached;
    }
  }

  lemma PutKeepsInv(s: State, to: seq<nat>, item: Item)
    requires Inv(s)
    ensures Inv(s.Put(to, item))
  {
    assert forall key | key in s.subscribers :: Owned(s.subscribers[key], s.Put(to, item).queues, key);
  }

  lemma PinnedKeepsInv(s: State, task: nat)
    requires Inv(s) && s.Is(task, Created)
    ensures Inv(Next(s, Pinned(task)))
  {
  }

  lemma PinFailsKeepsInv(s: State, task: nat)
    requires Inv(s) && s.Is(task, Created)
    ensures Inv(Next(s, PinFails(task)))
  {
  }

  lemma EndsKeepsInv(s: State, task: nat)
    requires Inv(s) && s.Is(task, Running)
    ensures Inv(Next(s, Ends(task)))
  {
    var key := s.drivers[task].thread;
    var ended := s.Become(task, Finished).Decr(key);
    PutKeepsInv(ended.(tasks := ended.tasks - {key}), s.Attached(key), Done);
  }

  lemma NextKeepsInv(s: State, e: Step)
    requires Inv(s)
    ensures Inv(Next(s, e))
  {
    match e
    case Run(id, attachOnly) =>
      SubscribeKeepsInv(s, Key(id), if s.Live(Key(id)) then [RunStarted] else []);
      if !s.Live(Key(id)) {
        SpawnKeepsInv(s.Subscribe(Key(id), []), Key(id));
      }
    case StartResume(id, heartbeat) => if !s.Live(Key(id)) { SpawnKeepsInv(s, Key(id)); }
    case Pinned(task) => if s.Is(task, Created) { PinnedKeepsInv(s, task); }
    case PinFails(task) => if s.Is(task, Created) { PinFailsKeepsInv(s, task); }
    case Publishes(task, item) =>
      if s.Is(task, Running) { PutKeepsInv(s, s.Attached(s.drivers[task].thread), item); }
    case Ends(task) => if s.Is(task, Running) { EndsKeepsInv(s, task); }
    case SnapshotTo(queue) => PutKeepsInv(s, [queue], Snapshot);
    case Leaves(id, queue) => UnsubscribeKeepsInv(s, Key(id), queue);
  }

  lemma {:induction false} InvAlways(s: State, steps: seq<Step>)
    requires Inv(s)
    ensures Inv(After(s, steps))
    decreases |steps|
  {
    if steps != [] {
      NextKeepsInv(s, steps[0]);
      InvAlways(Next(s, steps[0]), steps[1..]);
    }
  }

  /** In every interleaving: one unfinished driver per thread, and no count without a driver. */
  lemma OneDriverPerThread(steps: seq<Step>, a: nat, b: nat)
    requires var s := After(Start(), steps);
             && a < |s.drivers| && b < |s.drivers| && s.drivers[a].thread == s.drivers[b].thread
             && !s.drivers[a].phase.Finished? && !s.drivers[b].phase.Finished?
    ensures a == b
    ensures var s := After(Start(), steps); s.drivers[a].thread in s.counts <==> s.drivers[a].phase == Running
  {
    InvAlways(Start(), steps);
  }

  lemma IdleThreadHasNoCount(steps: seq<Step>, key: string)
    requires !After(Start(), steps).Live(key)
    ensures key !in After(Start(), steps).counts
  {
    InvAlways(Start(), steps);
  }

  // ---- what subscribers see ----

  lemma QueuesOnlyGrow(s: State, e: Step, q: nat)
    requires q < |s.queues|
    ensures q < |Next(s, e).queues| && s.queues[q].items <= Next(s, e).queues[q].items
    ensures s.queues[q].thread == Next(s, e).queues[q].thread
  {
  }

  lemma {:induction false} QueuesOnlyGrowAlways(s: State, steps: seq<Step>, q: nat)
    requires q < |s.queues|
    ensures q < |After(s, steps).queues| && s.queues[q].items <= After(s, steps).queues[q].items
    decreases |steps|
  {
    if steps != [] {
      QueuesOnlyGrow(s, steps[0], q);
      QueuesOnlyGrowAlways(Next(s, steps[0]), steps[1..], q);
    }
  }

  /** A request that joins a live driver reads RUN_STARTED first, whatever is published meanwhile. */
  lemma JoinedReadsRunStartedFirst(s: State, id: string, attachOnly: bool, steps: seq<Step>)
    requires s.Live(Key(id))
    ensures var q := |s.queues|;
            var later := After(Next(s, Run(id, attachOnly)), steps);
            q < |later.queues| && later.queues[q].items != [] && later.queues[q].items[0] == RunStarted
  {
    QueuesOnlyGrowAlways(Next(s, Run(id, attachOnly)), steps, |s.queues|);
  }

  /** What was put on queue `q` between two states. */
  function Sent(s: State, later: State, q: nat): seq<Item> {
    if q < |s.queues| && q < |later.queues| && |s.queues[q].items| <= |later.queues[q].items|
    then later.queues[q].items[|s.queues[q].items|..] else []
  }

  predicate Unfinished(s: State, task: nat, key: string) {
    task < |s.drivers| && s.drivers[task].thread == key && !s.drivers[task].phase.Finished?
  }

  /** The step that ends a driver past its pin, and the one in which a pin fails. */
  predicate EndsNow(s: State, e: Step, task: nat) {
    e == Ends(task) && s.Is(task, Running)
  }

  predicate FailsNow(s: State, e: Step, task: nat) {
    e == PinFails(task) && s.Is(task, Created)
  }

  lemma DriverPhase(s: State, e: Step, task: nat, key: string)
    requires Unfinished(s, task, key)
    ensures Unfinished(Next(s, e), task, key) <==> !EndsNow(s, e, task) && !FailsNow(s, e, task)
  {
  }

  /** Only leaving detaches a queue. */
  lemma AttachedGrows(s: State, e: Step, key: string)
    requires !e.Leaves?
    ensures s.Attached(key) <= Next(s, e).Attached(key)
  {
  }

  lemma UnsubscribeKeeps(s: State, left: string, queue: nat, key: string, q: nat)
    requires Inv(s) && q in s.Attached(key) && !(left == key && queue == q)
    ensures q in s.Unsubscribe(left, queue).Attached(key)
  {
    WithoutKeeps(s.Attached(left), queue);
  }

  lemma InPrefix<T>(a: seq<T>, b: seq<T>, x: T)
    requires a <= b && x in a
    ensures x in b
  {
    var i :| 0 <= i < |a| && a[i] == x;
    assert b[i] == x;
  }

  lemma AttachedStays(s: State, e: Step, key: string, q: nat)
    requires !e.Leaves? && q in s.Attached(key)
    ensures q in Next(s, e).Attached(key)
  {
    AttachedGrows(s, e, key);
    InPrefix(s.Attached(key), Next(s, e).Attached(key), q);
  }

  lemma StaysAttached(s: State, e: Step, key: string, q: nat)
    requires Inv(s) && q in s.Attached(key)
    requires e.Leaves? ==> !(Key(e.sessionId) == key && e.queue == q)
    ensures q in Next(s, e).Attached(key)
  {
    if e.Leaves? {
      UnsubscribeKeeps(s, Key(e.sessionId), e.queue, key, q);
    } else {
      AttachedStays(s, e, key, q);
    }
  }

  /** While a thread has an unfinished driver, only that driver's `finally` block sends DONE to it. */
  lemma DoneInStep(s: State, e: Step, task: nat, key: string, q: nat)
    requires Inv(s) && Unfinished(s, task, key) && q in s.Attached(key)
    ensures Done in Sent(s, Next(s, e), q) <==> EndsNow(s, e, task)
  {
    assert Owned(s.subscribers[key], s.queues, key);
    var i :| 0 <= i < |s.subscribers[key]| && s.subscribers[key][i] == q;
    var items := s.queues[q].items;
    if EndsNow(s, e, task) {
      assert Next(s, e).queues[q].items == items + [Done];
    } else if e.Ends? && s.Is(e.task, Running) {
      var other := s.drivers[e.task].thread;
      assert other != key;
      assert other in s.subscribers ==> Owned(s.subscribers[other], s.queues, other);
      assert Next(s, e).queues[q].items == items;
    } else {
      NoDoneSent(s, e, q);
    }
  }

  lemma NoDoneSent(s: State, e: Step, q: nat)
    requires q < |s.queues| && !(e.Ends? && s.Is(e.task, Running))
    ensures Done !in Sent(s, Next(s, e), q)
  {
    var before, after := s.queues[q].items, Next(s, e).queues[q].items;
    assert after == before || exists item :: item != Done && after == before + [item] by {
      if e.Publishes? && after != before {
        assert after == before + [e.item];
      } else if after != before {
        assert after == before + [Snapshot];
      }
    }
  }

  /** The thread's driver finishes in the last of these steps. */
  predicate FinishesLast(s: State, steps: seq<Step>, task: nat, key: string)
    decreases |steps|
  {
    && Unfinished(s, task, key) && steps != []
    && if |steps| == 1 then !Unfinished(Next(s, steps[0]), task, key)
       else FinishesLast(Next(s, steps[0]), steps[1..], task, key)
  }

  predicate NeverLeaves(steps: seq<Step>, key: string, q: nat) {
    forall i | 0 <= i < |steps| && steps[i].Leaves? :: !(Key(steps[i].sessionId) == key && steps[i].queue == q)
  }

  lemma RestNeverLeaves(steps: seq<Step>, key: string, q: nat)
    requires steps != [] && NeverLeaves(steps, key, q)
    ensures NeverLeaves(steps[1..], key, q)
  {
    assert forall i | 0 <= i < |steps| - 1 :: steps[1..][i] == steps[i + 1];
  }

  /** What one step leaves of an attached queue while the driver is unfinished, and in the step it finishes. */
  ghost predicate Along(s: State, e: Step, next: State, task: nat, key: string, q: nat) {
    && Unfinished(s, task, key) && q < |s.queues| && q < |next.queues| && s.queues[q].items <= next.queues[q].items
    && (Unfinished(next, task, key) ==> Done !in Sent(s, next, q))
    && (!Unfinished(next, task, key) ==> (Done in Sent(s, next, q) <==> e == Ends(task)))
  }

  lemma OneStep(s: State, e: Step, task: nat, key: string, q: nat)
    requires Inv(s) && q in s.Attached(key) && q < |s.queues| && Unfinished(s, task, key)
    requires e.Leaves? ==> !(Key(e.sessionId) == key && e.queue == q)
    ensures Inv(Next(s, e)) && q in Next(s, e).Attached(key) && Along(s, e, Next(s, e), task, key, q)
  {
    DriverPhase(s, e, task, key);
    StaysAttached(s, e, key, q);
    DoneInStep(s, e, task, key, q);
    QueuesOnlyGrow(s, e, q);
    NextKeepsInv(s, e);
  }

  /** The states that a run goes through after each of its steps. */
  function Trail(s: State, steps: seq<Step>): (states: seq<State>)
    ensures |states| == |steps|
    decreases |steps|
  {
    if steps == [] then [] else [Next(s, steps[0])] + Trail(Next(s, steps[0]), steps[1..])
  }

  ghost predicate AllAlong(s: State, steps: seq<Step>, states: seq<State>, task: nat, key: string, q: nat)
    requires |states| == |steps|
    decreases |steps|
  {
    steps != [] ==>
      && Along(s, steps[0], states[0], task, key, q)
      && (|steps| == 1 <==> !Unfinished(states[0], task, key))
      && AllAlong(states[0], steps[1..], states[1..], task, key, q)
  }

  lemma AlongNext(s: State, steps: seq<Step>, states: seq<State>, task: nat, key: string, q: nat)
    requires steps != [] && |states| == |steps| && Along(s, steps[0], states[0], task, key, q)
    requires |steps| == 1 <==> !Unfinished(states[0], task, key)
    requires AllAlong(states[0], steps[1..], states[1..], task, key, q)
    ensures AllAlong(s, steps, states, task, key, q)
  {
  }

  lemma FirstOfMany(s: State, steps: seq<Step>, task: nat, key: string)
    requires FinishesLast(s, steps, task, key)
    ensures steps != [] && Unfinished(s, task, key) && (|steps| == 1 <==> !Unfinished(Next(s, steps[0]), task, key))
    ensures |steps| > 1 ==> FinishesLast(Next(s, steps[0]), steps[1..], task, key)
  {
  }

  lemma TrailNext(s: State, steps: seq<Step>)
    requires steps != []
    ensures Trail(s, steps)[0] == Next(s, steps[0]) && Trail(s, steps)[1..] == Trail(Next(s, steps[0]), steps[1..])
    ensures |steps| == 1 ==> After(s, steps) == Last(Trail(s, steps))
    ensures |steps| > 1 ==> Last(Trail(s, steps)) == Last(Trail(Next(s, steps[0]), steps[1..]))
  {
  }

  lemma {:induction false} TrailIsAlong(s: State, steps: seq<Step>, task: nat, key: string, q: nat)
    requires Inv(s) && q in s.Attached(key) && q < |s.queues|
    requires FinishesLast(s, steps, task, key) && NeverLeaves(steps, key, q)
    ensures AllAlong(s, steps, Trail(s, steps), task, key, q) && After(s, steps) == Last(Trail(s, steps))
    decreases |steps|
  {
    FirstOfMany(s, steps, task, key);
    TrailNext(s, steps);
    RestNeverLeaves(steps, key, q);
    OneStep(s, steps[0], task, key, q);
    if |steps| > 1 {
      TrailIsAlong(Next(s, steps[0]), steps[1..], task, key, q);
    }
    AlongNext(s, steps, Trail(s, steps), task, key, q);
  }

  /** So DONE is sent in the last step, if at all. */
  lemma {:induction false} DoneAlong(s: State, steps: seq<Step>, states: seq<State>, task: nat, key: string, q: nat)
    requires steps != [] && |states| == |steps| && AllAlong(s, steps, states, task, key, q)
    ensures q < |s.queues| && q < |Last(states).queues| && s.queues[q].items <= Last(states).queues[q].items
    ensures Done in Sent(s, Last(states), q) <==> Last(steps) == Ends(task)
    decreases |steps|
  {
    if |steps| > 1 {
      var next, end := states[0], Last(states);
      DoneAlong(next, steps[1..], states[1..], task, key, q);
      DoneSoFar(s.queues[q].items, next.queues[q].items, end.queues[q].items);
    }
  }

  /** Over a whole run, up to and including the step that finishes a thread's driver: a subscriber that
      stays attached is sent DONE if and only if that driver got past `pin_for_session`. */
  lemma DoneIffPastPin(s: State, steps: seq<Step>, task: nat, key: string, q: nat)
    requires Inv(s) && q in s.Attached(key) && q < |s.queues|
    requires FinishesLast(s, steps, task, key) && NeverLeaves(steps, key, q)
    ensures q < |After(s, steps).queues| && s.queues[q].items <= After(s, steps).queues[q].items
    ensures Done in Sent(s, After(s, steps), q) <==> Last(steps) == Ends(task)
  {
    TrailIsAlong(s, steps, task, key, q);
    DoneAlong(s, steps, Trail(s, steps), task, key, q);
  }

  lemma DoneSoFar(a: seq<Item>, b: seq<Item>, c: seq<Item>)
    requires a <= b <= c
    ensures Done in c[|a|..] <==> Done in b[|a|..] || Done in c[|b|..]
  {
    assert c[|a|..] == b[|a|..] + c[|b|..];
  }

  // ---- a whole life ----

  function Publishing(task: nat, items: seq<Item>): seq<Step> {
    seq(|items|, i requires 0 <= i < |items| => Publishes(task, items[i]))
  }

  lemma PublishedOne(s: State, task: nat, key: string, q: nat, item: Item)
    requires s.Is(task, Running) && s.drivers[task].thread == key && q in s.Attached(key) && q < |s.queues| && item != Done
    ensures var next := Next(s, Publishes(task, item));
            && next.(queues := s.queues) == s && |next.queues| == |s.queues|
            && next.queues[q].thread == s.queues[q].thread && next.queues[q].items == s.queues[q].items + [item]
  {
  }

  /** While driver `task` of `key` runs, what it publishes is put on the attached queue q, in order. */
  lemma {:induction false} PublishedInOrder(s: State, task: nat, key: string, q: nat, items: seq<Item>)
    requires s.Is(task, Running) && s.drivers[task].thread == key && q in s.Attached(key) && q < |s.queues|
    requires Done !in items
    ensures var after := After(s, Publishing(task, items));
            && after.(queues := s.queues) == s && |after.queues| == |s.queues|
            && after.queues[q].thread == s.queues[q].thread && after.queues[q].items == s.queues[q].items + items
    decreases |items|
  {
    var steps := Publishing(task, items);
    if items != [] {
      var next, rest := Next(s, steps[0]), items[1..];
      assert items == [items[0]] + rest && items[0] in items;
      PublishedOne(s, task, key, q, items[0]);
      assert steps[1..] == Publishing(task, rest);
      PublishedInOrder(next, task, key, q, rest);
      Associative(s.queues[q].items, [items[0]], rest);
    }
  }

  lemma {:induction false} AfterConcat(s: State, a: seq<Step>, b: seq<Step>)
    ensures After(s, a + b) == After(After(s, a), b)
    decreases |a|
  {
    if a == [] {
      assert a + b == b;
    } else {
      assert (a + b)[1..] == a[1..] + b;
      AfterConcat(Next(s, a[0]), a[1..], b);
    }
  }

  /** A request for an idle thread starts a driver, which gets past its pin, publishes and ends: the request's queue
      then has everything that was published and DONE, and the thread is idle again. */
  lemma FullLife(s: State, id: string, items: seq<Item>)
    requires Inv(s) && !s.Live(Key(id)) && Done !in items
    ensures var task, q := |s.drivers|, |s.queues|;
            var after := After(s, [Run(id, false), Pinned(task)] + Publishing(task, items) + [Ends(task)]);
            && q < |after.queues| && after.queues[q] == Queue(Key(id), items + [Done])
            && after.Is(task, Finished) && Key(id) !in after.tasks && Key(id) !in after.counts
  {
    var task := |s.drivers|;
    var opening, rest := [Run(id, false), Pinned(task)], Publishing(task, items) + [Ends(task)];
    LifeBegins(s, id);
    LifeGoesOn(After(s, opening), task, Key(id), |s.queues|, items);
    AfterConcat(s, opening, rest);
    Associative(opening, Publishing(task, items), [Ends(task)]);
  }

  lemma LifeGoesOn(s: State, task: nat, key: string, q: nat, items: seq<Item>)
    requires s.Is(task, Running) && s.drivers[task].thread == key && q in s.Attached(key) && q < |s.queues|
    requires key in s.counts && s.counts[key] == 1 && s.queues[q] == Queue(key, []) && Done !in items
    ensures var after := After(s, Publishing(task, items) + [Ends(task)]);
            && q < |after.queues| && after.queues[q] == Queue(key, items + [Done])
            && after.Is(task, Finished) && key !in after.tasks && key !in after.counts
  {
    var published := After(s, Publishing(task, items));
    PublishedInOrder(s, task, key, q, items);
    assert published.drivers == s.drivers && published.counts == s.counts && published.subscribers == s.subscribers;
    LifeEnds(published, task, key, q);
    AfterConcat(s, Publishing(task, items), [Ends(task)]);
  }

  lemma LifeBegins(s: State, id: string)
    requires Inv(s) && !s.Live(Key(id))
    ensures var task, q, running := |s.drivers|, |s.queues|, After(s, [Run(id, false), Pinned(|s.drivers|)]);
            && running.Is(task, Running) && running.drivers[task].thread == Key(id)
            && q in running.Attached(Key(id)) && |running.queues| == q + 1 && running.queues[q] == Queue(Key(id), [])
            && Key(id) in running.counts && running.counts[Key(id)] == 1
  {
    var key, task := Key(id), |s.drivers|;
    AfterTwo(s, Run(id, false), Pinned(task));
    var began := s.Subscribe(key, []).Spawn(key);
    assert Next(s, Run(id, false)) == began && began.Is(task, Created);
    assert Next(began, Pinned(task)) == began.Become(task, Running).Incr(key);
    assert key !in s.counts;
    assert s.Attached(key) + [|s.queues|] == began.Attached(key) && began.Attached(key)[|s.Attached(key)|] == |s.queues|;
  }

  lemma AfterOne(s: State, e: Step)
    ensures After(s, [e]) == Next(s, e)
  {
    assert [e][1..] == [];
  }

  lemma AfterTwo(s: State, e: Step, f: Step)
    ensures After(s, [e, f]) == Next(Next(s, e), f)
  {
    assert [e, f][1..] == [f];
    AfterOne(Next(s, e), f);
  }

  lemma LifeEnds(s: State, task: nat, key: string, q: nat)
    requires s.Is(task, Running) && s.drivers[task].thread == key && q in s.Attached(key) && q < |s.queues|
    requires key in s.counts && s.counts[key] == 1
    ensures var after := After(s, [Ends(task)]);
            && |after.queues| == |s.queues| && after.queues[q] == s.queues[q].(items := s.queues[q].items + [Done])
            && after.Is(task, Finished) && key !in after.tasks && key !in after.counts
  {
    AfterOne(s, Ends(task));
  }

  /** A reattached request's snapshot is put on its own queue only. */
  lemma SnapshotReachesOne(s: State, queue: nat, q: nat)
    requires queue < |s.queues| && q < |s.queues|
    ensures var after := Next(s, SnapshotTo(queue));
            && after.(queues := s.queues) == s && |after.queues| == |s.queues|
            && after.queues[q].thread == s.queues[q].thread
            && after.queues[q].items == if q == queue then s.queues[q].items + [Snapshot] else s.queues[q].items
  {
  }

  /** A request that leaves is detached, and no other queue is; the order of the others stays. */
  lemma LeavingDetaches(s: State, id: string, queue: nat)
    requires Inv(s)
    ensures var after := Next(s, Leaves(id, queue));
            && (forall q :: q in after.Attached(Key(id)) <==> q in s.Attached(Key(id)) && q != queue)
            && (forall key | key != Key(id) :: after.Attached(key) == s.Attached(key))
            && after == s.(subscribers := after.subscribers)
  {
    WithoutKeeps(s.Attached(Key(id)), queue);
  }

  // ---- the code ----

  datatype Attachment = SnapshotOnly | Driving(queue: nat, task: nat) | Joined(queue: nat)

  /** `run`, up to its first await. */
  method BeginRun(activity: RunActivity, sessionId: string, attachOnly: bool) returns (a: Attachment)
    requires Inv(activity.View())
    modifies activity
    ensures activity.View() == Next(old(activity.View()), Run(sessionId, attachOnly)) && Inv(activity.View())
    ensures a.SnapshotOnly? <==> attachOnly && !old(activity.View()).Live(Key(sessionId))
    ensures a.SnapshotOnly? ==> activity.View() == old(activity.View())
    ensures a.Joined? <==> old(activity.View()).Live(Key(sessionId))
    ensures a.Joined? ==>
              && activity.drivers == old(activity.drivers) && activity.tasks == old(activity.tasks)
              && a.queue == |old(activity.queues)| && a.queue in activity.View().Attached(Key(sessionId))
              && activity.queues == old(activity.queues) + [Queue(Key(sessionId), [RunStarted])]
    ensures a.Driving? ==>
              && a.task == |old(activity.drivers)| && activity.View().Is(a.task, Created)
              && activity.tasks == old(activity.tasks)[Key(sessionId) := a.task]
              && a.queue == |old(activity.queues)| && a.queue in activity.View().Attached(Key(sessionId))
              && activity.queues == old(activity.queues) + [Queue(Key(sessionId), [])]
  {
    NextKeepsInv(activity.View(), Run(sessionId, attachOnly));
    var key := Key(sessionId);
    var live := key in activity.tasks && !activity.drivers[activity.tasks[key]].phase.Finished?;
    if !live && attachOnly {
      return SnapshotOnly;
    }
    var queue := activity.Subscribe(sessionId);
    if !live {
      var task := activity.CreateAndRegister(sessionId);
      return Driving(queue, task);
    }
    activity.queues := activity.queues[queue := activity.queues[queue].(items := [RunStarted])];
    return Joined(queue);
  }

  /** `start_resume`: check and register without an await in between. */
  method Resume(activity: RunActivity, sessionId: string, heartbeat: bool) returns (started: bool)
    requires Inv(activity.View())
    modifies activity
    ensures activity.View() == Next(old(activity.View()), StartResume(sessionId, heartbeat)) && Inv(activity.View())
    ensures var before, key := old(activity.View()), Key(sessionId);
            && (started <==> !before.Live(key) && key !in before.counts && !heartbeat)
            && (started ==>
                  && activity.View().Is(|before.drivers|, Created) && activity.drivers[|before.drivers|].thread == key
                  && activity.tasks == before.tasks[key := |before.drivers|])
    ensures !started ==> activity.View() == old(activity.View())
  {
    NextKeepsInv(activity.View(), StartResume(sessionId, heartbeat));
    var key := Key(sessionId);
    var live := key in activity.tasks && !activity.drivers[activity.tasks[key]].phase.Finished?;
    if live || key in activity.counts || heartbeat {
      return false;
    }
    var _ := activity.CreateAndRegister(sessionId);
    return true;
  }

  /** The `finally` block of `_drive_graph`; the popped task is always the one that is ending. */
  method DriverFinally(activity: RunActivity, task: nat, sessionId: string) returns (popped: Option<nat>)
    requires Inv(activity.View()) && activity.View().Is(task, Running)
    requires activity.drivers[task].thread == Key(sessionId)
    modifies activity
    ensures activity.View() == Next(old(activity.View()), Ends(task)) && Inv(activity.View())
    ensures popped == Some(task)
    ensures Key(sessionId) !in activity.counts && Key(sessionId) !in activity.tasks
    ensures var attached := activity.View().Attached(Key(sessionId));
            forall i | 0 <= i < |attached| ::
              && attached[i] < |activity.queues|
              && activity.queues[attached[i]].items == old(activity.queues)[attached[i]].items + [Done]
  {
    EndsKeepsInv(activity.View(), task);
    activity.Decr(sessionId);
    popped := activity.PopTask(sessionId);
    assert activity.View().Attached(Key(sessionId)) == old(activity.View()).Attached(Key(sessionId));
    assert Owned(activity.View().Attached(Key(sessionId)), old(activity.queues), Key(sessionId));
    activity.Publish(sessionId, Done);
    activity.drivers := activity.drivers[task := activity.drivers[task].(phase := Finished)];
  }
}
