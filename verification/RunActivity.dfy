/** The process-local registries behind a running graph: the refcount, the driving task of each thread,
    and the queues of the attached requests.  Tasks and queues are numbered as they are created; a queue
    is everything ever put on it (bounded queues and reading are left out). */
module RunActivity {
  import opened Text

  datatype Item = RunStarted | Snapshot | Event(n: nat) | Done

  /** A driver task is not past `pin_for_session`, past it, or done. */
  datatype Phase = Created | Running | Finished

  datatype Driver = Driver(thread: string, phase: Phase)
  datatype Queue = Queue(thread: string, items: seq<Item>)

  /** Every registry is keyed by the lower-cased session id. */
  function Key(sessionId: string): string {
    Lower(sessionId)
  }

  /** Two ids have the same key exactly when they differ in the case of ASCII letters only. */
  lemma KeyIgnoresCase(a: string, b: string)
    ensures Key(a) == Key(b)
       <==> |a| == |b| && forall i | 0 <= i < |a| ::
              a[i] == b[i] || ('A' <= a[i] <= 'Z' && a[i] - 'A' + 'a' == b[i]) || ('A' <= b[i] <= 'Z' && b[i] - 'A' + 'a' == a[i])
  {
    assert Key(a) == Key(b) <==> |a| == |b| && forall i | 0 <= i < |a| :: Key(a)[i] == Key(b)[i];
    forall i | 0 <= i < |a| == |b|
      ensures Key(a)[i] == Key(b)[i]
         <==> a[i] == b[i] || ('A' <= a[i] <= 'Z' && a[i] - 'A' + 'a' == b[i]) || ('A' <= b[i] <= 'Z' && b[i] - 'A' + 'a' == a[i])
    {
    }
  }

  function Without(s: seq<nat>, x: nat): seq<nat> {
    if s == [] then [] else if s[0] == x then s[1..] else [s[0]] + Without(s[1..], x)
  }

  /** Attached queues exist and were made for the thread. */
  predicate Owned(attached: seq<nat>, queues: seq<Queue>, key: string) {
    forall i | 0 <= i < |attached| :: attached[i] < |queues| && queues[attached[i]].thread == key
  }

  datatype State = State(counts: map<string, nat>, tasks: map<string, nat>, drivers: seq<Driver>,
                         subscribers: map<string, seq<nat>>, queues: seq<Queue>)
  {
    function Incr(key: string): State {
      this.(counts := counts[key := (if key in counts then counts[key] else 0) + 1])
    }

    function Decr(key: string): State {
      this.(counts := if key in counts && counts[key] > 1 then counts[key := counts[key] - 1] else counts - {key})
    }

    function Attached(key: string): seq<nat> {
      if key in subscribers then subscribers[key] else []
    }

    function Subscribe(key: string, first: seq<Item>): State {
      this.(subscribers := subscribers[key := Attached(key) + [|queues|]], queues := queues + [Queue(key, first)])
    }

    function Unsubscribe(key: string, queue: nat): State {
      var left := Without(Attached(key), queue);
      this.(subscribers := if left == [] then subscribers - {key} else subscribers[key := left])
    }

    function Put(to: seq<nat>, item: Item): State {
      this.(queues := seq(|queues|, q requires 0 <= q < |queues| =>
              if q in to then queues[q].(items := queues[q].items + [item]) else queues[q]))
    }

    function Publish(key: string, item: Item): State {
      Put(Attached(key), item)
    }

    function Spawn(key: string): State {
      this.(drivers := drivers + [Driver(key, Created)], tasks := tasks[key := |drivers|])
    }

    /** A live task is registered: `existing is not None and not existing.done()`. */
    predicate Live(key: string) {
      key in tasks && tasks[key] < |drivers| && !drivers[tasks[key]].phase.Finished?
    }

    predicate Is(task: nat, phase: Phase) {
      task < |drivers| && drivers[task].phase == phase
    }

    function Become(task: nat, phase: Phase): State
      requires task < |drivers|
    {
      this.(drivers := drivers[task := drivers[task].(phase := phase)])
    }
  }

  /** A count tells how many more increments than decrements there were. */
  lemma DecrUndoesIncr(s: State, key: string)
    requires forall k | k in s.counts :: s.counts[k] > 0
    ensures s.Incr(key).Decr(key) == s
    ensures key in s.Incr(key).counts && s.Incr(key).counts[key] == (if key in s.counts then s.counts[key] else 0) + 1
  {
    var after := s.Incr(key).Decr(key);
    forall k
      ensures (k in after.counts <==> k in s.counts) && (k in s.counts ==> after.counts[k] == s.counts[k])
    {
    }
    assert after.counts == s.counts;
  }

  /** `run_activity`, with the task phases asyncio keeps. */
  class RunActivity {
    var counts: map<string, nat>
    var tasks: map<string, nat>
    var drivers: seq<Driver>
    var subscribers: map<string, seq<nat>>
    var queues: seq<Queue>

    function View(): State
      reads this
    {
      State(counts, tasks, drivers, subscribers, queues)
    }

    constructor ()
      ensures View() == State(map[], map[], [], map[], [])
    {
      counts, tasks, drivers, subscribers, queues := map[], map[], [], map[], [];
    }

    method Incr(sessionId: string)
      modifies this`counts
      ensures View() == old(View()).Incr(Key(sessionId))
    {
      var key := Key(sessionId);
      counts := counts[key := (if key in counts then counts[key] else 0) + 1];
    }

    method Decr(sessionId: string)
      modifies this`counts
      ensures View() == old(View()).Decr(Key(sessionId))
    {
      var key := Key(sessionId);
      var count: int := if key in counts then counts[key] else 0;
      count := count - 1;
      if count > 0 {
        counts := counts[key := count];
      } else {
        counts := counts - {key};
      }
    }

    method CreateAndRegister(sessionId: string) returns (task: nat)
      modifies this`drivers, this`tasks
      ensures View() == old(View()).Spawn(Key(sessionId)) && task == |old(drivers)|
    {
      task := |drivers|;
      drivers := drivers + [Driver(Key(sessionId), Created)];
      tasks := tasks[Key(sessionId) := task];
    }

    method PopTask(sessionId: string) returns (task: Option<nat>)
      modifies this`tasks
      ensures View() == old(View()).(tasks := old(tasks) - {Key(sessionId)})
      ensures task == if Key(sessionId) in old(tasks) then Some(old(tasks)[Key(sessionId)]) else None
    {
      var key := Key(sessionId);
      task := if key in tasks then Some(tasks[key]) else None;
      tasks := tasks - {key};
    }

    method Subscribe(sessionId: string) returns (queue: nat)
      modifies this`subscribers, this`queues
      ensures View() == old(View()).Subscribe(Key(sessionId), []) && queue == |old(queues)|
    {
      var key := Key(sessionId);
      queue := |queues|;
      queues := queues + [Queue(key, [])];
      subscribers := subscribers[key := (if key in subscribers then subscribers[key] else []) + [queue]];
    }

    method Unsubscribe(sessionId: string, queue: nat)
      modifies this`subscribers
      ensures View() == old(View()).Unsubscribe(Key(sessionId), queue)
    {
      var key := Key(sessionId);
      if key !in subscribers {
        return;
      }
      var left := Without(subscribers[key], queue);
      subscribers := subscribers[key := left];
      if left == [] {
        subscribers := subscribers - {key};
      }
    }

    method Publish(sessionId: string, item: Item)
      requires NoDuplicates(View().Attached(Key(sessionId)))
      requires Owned(View().Attached(Key(sessionId)), queues, Key(sessionId))
      modifies this`queues
      ensures View() == old(View()).Publish(Key(sessionId), item)
    {
      var key := Key(sessionId);
      var attached := if key in subscribers then subscribers[key] else [];
      assert forall i | 0 <= i < |attached| :: attached[i] < |queues|;
      for i := 0 to |attached|
        invariant |queues| == |old(queues)|
        invariant forall q | 0 <= q < |queues| ::
                    queues[q] == if q in attached[..i] then old(queues)[q].(items := old(queues)[q].items + [item])
                                 else old(queues)[q]
      {
        var q := attached[i];
        assert q !in attached[..i];
        queues := queues[q := queues[q].(items := queues[q].items + [item])];
        assert attached[..i + 1] == attached[..i] + [q];
      }
      assert attached[..|attached|] == attached;
    }
  }
}
