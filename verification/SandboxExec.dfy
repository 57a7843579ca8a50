/** The sandbox a CLI turn runs in, seen through `exec_in_sandbox`.  Every exec takes some time, during
    which the turn keeps writing its output, may finish (the exit file appears) or may die.  What the
    world does is an arbitrary script; when the script ends, the awaiting coroutine is cancelled. */
module SandboxExec {
  import opened Text
  import opened Narration
  import opened PollFraming

  const MAX_TAIL_BYTES := 2 * 1024 * 1024
  const HEAD_BYTES := 65536

  const DONE := "DONE"
  const DEAD := "DEAD"
  const PENDING := "PENDING"

  datatype Command =
    | WriteScratch | Launch | Poll | Kill | Head | CatOut | CatErr | CatExit | Cleanup

  /** How an awaited exec can throw; a cancellation is not an `Exception`. */
  datatype Failure = Error | TimedOut | Cancelled

  datatype Reply = Replied(ok: bool, stdout: string) | Threw(failure: Failure) {
    /** `result.stdout if result.ok else ""`. */
    function TextIfOk(): string {
      if Replied? && ok then stdout else ""
    }
  }

  /** What a log records: the reply to a command; of a poll, from which offset it read, whether the exit
      file was there as it began and as it read the tail, and whether that tail arrived undamaged. */
  datatype Entry =
    | Entry(command: Command, reply: Reply)
    | Polled(failed: Option<Failure>, offset: nat, exitedBefore: bool, exitedAtRead: bool, intact: bool)
  {
    function Issued(): Command {
      if Polled? then Command.Poll else command
    }
  }

  type Seconds = r: real | r >= 0.0

  /** What becomes of one exec.  `NoTail` and `BadTail` are polls whose tail read failed. */
  datatype Outcome = Fine | NotOk | Raises(failure: Failure) | NoTail | BadTail(payload: string)

  /** The world during one exec: output written before and after the tail read of a poll, the exit file
      appearing before or after it, and whether the process is gone when its status is checked. */
  datatype Moment = Moment(seconds: Seconds, early: seq<Byte>, exitsEarly: bool,
                           late: seq<Byte>, exitsLate: bool, dead: bool, outcome: Outcome)

  datatype Base64 = Base64(encode: seq<Byte> -> string, decode: string -> Option<seq<Byte>>) {
    /** What the tail read relies on: a one-line code that round-trips. */
    ghost predicate Sound() {
      forall b: seq<Byte> ::
        && decode(encode(b)) == Some(b) && '\n' !in encode(b) && encode(b) != TAIL_MARKER_END
        && (encode(b) == "" <==> b == [])
    }
  }

  function Min(a: real, b: real): real { if a <= b then a else b }
  function Max(a: real, b: real): real { if a >= b then a else b }

  /** The bytes `tail -c +offset | head -c cap` prints. */
  function Tail(out: seq<Byte>, offset: nat): (bytes: seq<Byte>)
    ensures |bytes| <= MAX_TAIL_BYTES
    ensures offset <= |out| ==> out[..offset] + bytes <= out
    ensures offset <= |out| && |bytes| < MAX_TAIL_BYTES ==> out[..offset] + bytes == out
  {
    if offset > |out| then []
    else if |out| - offset <= MAX_TAIL_BYTES then out[offset..]
    else out[offset..offset + MAX_TAIL_BYTES]
  }

  /** The bytes `head -c` prints. */
  function HeadOf(out: seq<Byte>): (head: seq<Byte>)
    ensures head <= out && |head| <= HEAD_BYTES
    ensures |out| <= HEAD_BYTES ==> head == out
    ensures |out| >= HEAD_BYTES ==> |head| == HEAD_BYTES
  {
    if |out| <= HEAD_BYTES then out else out[..HEAD_BYTES]
  }

  /** The host side of a streaming poll: the new bytes and the status word. */
  function ReadTail(base64: Base64, stdout: string): (seq<Byte>, string) {
    var (payload, status) := SplitTailPollOutput(stdout);
    if payload == "" then ([], status)
    else match base64.decode(payload)
         case None => ([], status)
         case Some(bytes) => (bytes, status)
  }

  /** The world at one instant: the output file, the exit file, the time, and what is to come. */
  datatype World = World(out: seq<Byte>, exitFile: bool, clock: real, script: seq<Moment>) {
    /** A process that has exited writes no more. */
    function Write(bytes: seq<Byte>, exits: bool): World {
      if exitFile then this else this.(out := out + bytes, exitFile := exits)
    }

    /** Half-way through the next exec, where a poll reads the tail. */
    function AtRead(): World {
      if script == [] then this else Write(script[0].early, script[0].exitsEarly)
    }

    /** After the next exec, which is given up after `bound` seconds, if there is a bound. */
    function AfterExec(bound: Option<real>): World {
      if script == [] then this
      else
        var m := script[0];
        var seconds: real := if bound.Some? && m.seconds > bound.value then bound.value else m.seconds;
        AtRead().Write(m.late, m.exitsLate).(clock := clock + Max(seconds, 0.0), script := script[1..])
    }

    /** How the next exec throws, if it does. */
    function Fails(bound: Option<real>): Option<Failure> {
      if script == [] then Some(Cancelled)
      else if bound.Some? && script[0].seconds > bound.value then Some(TimedOut)
      else if script[0].outcome.Raises? then Some(script[0].outcome.failure)
      else None
    }

    /** A poll's tail arrives undamaged. */
    predicate Intact(streaming: bool, bound: real) {
      streaming && Fails(Some(bound)).None? && script[0].outcome.Fine?
    }

    /** The status word of a poll, checked after the tail was read. */
    function Status(bound: real): string {
      if AfterExec(Some(bound)).exitFile then DONE
      else if script != [] && script[0].dead then DEAD
      else PENDING
    }

    /** The output only grows, and no longer once the exit file exists. */
    predicate LeadsTo(later: World) {
      out <= later.out && (exitFile ==> later.exitFile && later.out == out) && clock <= later.clock
    }
  }

  lemma ExecLeads(w: World, bound: Option<real>)
    ensures w.LeadsTo(w.AtRead()) && w.AtRead().LeadsTo(w.AfterExec(bound)) && w.LeadsTo(w.AfterExec(bound))
  {
  }

  lemma LeadsOn(a: World, b: World, c: World)
    requires a.LeadsTo(b) && b.LeadsTo(c)
    ensures a.LeadsTo(c)
  {
  }

  class Sandbox {
    const decode: Decode
    const base64: Base64
    const stderr: string
    const exitStatus: Option<int>
    var out: seq<Byte>
    var exitFile: bool
    var clock: real
    var script: seq<Moment>
    ghost var log: seq<Entry>

    function View(): World
      reads this
    {
      World(out, exitFile, clock, script)
    }

    constructor (decode: Decode, base64: Base64, stderr: string, exitStatus: Option<int>, script: seq<Moment>)
      ensures this.decode == decode && this.base64 == base64 && this.stderr == stderr
      ensures this.exitStatus == exitStatus
      ensures View() == World([], false, 0.0, script) && log == []
    {
      this.decode, this.base64, this.stderr, this.exitStatus := decode, base64, stderr, exitStatus;
      this.script := script;
      out, exitFile, clock, log := [], false, 0.0, [];
    }

    twostate predicate Progress()
      reads this
    {
      old(View()).LeadsTo(View())
    }

    /** The exit file appears together with the last output; nothing is written after it. */
    method Write(bytes: seq<Byte>, exits: bool)
      modifies this`out, this`exitFile
      ensures View() == old(View()).Write(bytes, exits)
    {
      if !exitFile {
        out := out + bytes;
        exitFile := exits;
      }
    }

    /** What a command other than a poll prints, given the output file as it stands. */
    function Prints(command: Command, output: seq<Byte>): string {
      match command
      case CatOut => Strip(decode(output))
      case Head => Strip(decode(HeadOf(output)))
      case CatErr => stderr
      case _ => ""
    }

    /** The reply to a command other than a poll, in the world before it. */
    function Answer(w: World, command: Command): Reply {
      if w.Fails(None).Some? then Threw(w.Fails(None).value)
      else if w.script[0].outcome.NotOk? then Replied(false, "")
      else Replied(true, Prints(command, w.AfterExec(None).out))
    }

    /** Every exec but a poll. */
    method Exec(command: Command) returns (reply: Reply)
      modifies this
      ensures View() == old(View()).AfterExec(None) && Progress()
      ensures reply == Answer(old(View()), command)
      ensures log == old(log) + [Entry(command, reply)]
    {
      ExecLeads(View(), None);
      reply := Threw(Cancelled);
      if script != [] {
        var m := script[0];
        script := script[1..];
        clock := clock + m.seconds;
        Write(m.early, m.exitsEarly);
        Write(m.late, m.exitsLate);
        reply := match m.outcome
                 case Raises(f) => Threw(f)
                 case NotOk => Replied(false, "")
                 case _ => Replied(true, Prints(command, out));
      }
      log := log + [Entry(command, reply)];
    }

    /** One completion wait: wait, read the tail, then check the status, in that order.  `wait_for`
        gives up after `bound` seconds. */
    method PollOnce(offset: nat, streaming: bool, bound: real) returns (reply: Reply)
      requires base64.Sound() && bound >= 0.0
      modifies this
      ensures View() == old(View()).AfterExec(Some(bound)) && Progress()
      ensures var w := old(View());
              && log == old(log) + [PollEntry(w, offset, streaming, bound)]
              && (w.Fails(Some(bound)).Some? ==> reply == Threw(w.Fails(Some(bound)).value))
              && (w.Fails(Some(bound)).None? ==> reply.Replied? && (reply.ok <==> !w.script[0].outcome.NotOk?))
              && (reply.Replied? && !reply.ok ==> reply.stdout == "")
              && (reply.Replied? && reply.ok && streaming ==>
                    ReadTail(base64, reply.stdout)
                    == (if w.Intact(streaming, bound) then Tail(w.AtRead().out, offset) else [], w.Status(bound)))
              && (reply.Replied? && reply.ok && !streaming ==> reply.stdout == w.Status(bound))
    {
      reply := Threw(Cancelled);
      ghost var w := View();
      ExecLeads(w, Some(bound));
      if script != [] {
        var m := script[0];
        script := script[1..];
        Write(m.early, m.exitsEarly);
        var payload := base64.encode(Tail(out, offset));
        Write(m.late, m.exitsLate);
        var status := if exitFile then DONE else if m.dead then DEAD else PENDING;
        if m.seconds > bound {
          clock := clock + bound;
          reply := Threw(TimedOut);
        } else {
          clock := clock + m.seconds;
          if m.outcome.Raises? {
            reply := Threw(m.outcome.failure);
          } else if m.outcome.NotOk? {
            reply := Replied(false, "");
          } else if !streaming {
            reply := Replied(true, status);
          } else if m.outcome.Fine? {
            reply := Replied(true, Strip(Frame(payload, status)));
            FramedReply(base64, payload, status);
          } else if m.outcome.BadTail? && BadPayload(base64, m.outcome.payload) {
            reply := Replied(true, Strip(Frame(m.outcome.payload, status)));
            FramedReply(base64, m.outcome.payload, status);
          } else {
            reply := Replied(true, status);
            UnframedReply(base64, status);
          }
        }
      }
      log := log + [PollEntry(w, offset, streaming, bound)];
    }
  }

  ghost function PollEntry(w: World, offset: nat, streaming: bool, bound: real): Entry {
    Polled(w.Fails(Some(bound)), offset, w.exitFile, w.AtRead().exitFile, w.Intact(streaming, bound))
  }

  /** A payload line that is not valid base64. */
  predicate BadPayload(base64: Base64, payload: string) {
    '\n' !in payload && payload != TAIL_MARKER_END && base64.decode(payload).None?
  }

  lemma FramedReply(base64: Base64, payload: string, status: string)
    requires status in {DONE, DEAD, PENDING} && '\n' !in payload && payload != TAIL_MARKER_END
    ensures ReadTail(base64, Strip(Frame(payload, status))).1 == status
    ensures ReadTail(base64, Strip(Frame(payload, status))).0 ==
            if payload != "" && base64.decode(payload).Some? then base64.decode(payload).value else []
  {
    FramedRoundTrip(payload, status);
  }

  lemma UnframedReply(base64: Base64, status: string)
    requires status in {DONE, DEAD, PENDING}
    ensures ReadTail(base64, status) == ([], status)
  {
    StripTrimmed(status);
    SplitPlain(status, '\n');
    UnframedFallback(status);
  }

  /** A failed exec is read as an empty reply: no new bytes and no status. */
  lemma EmptyReply(base64: Base64)
    ensures ReadTail(base64, "") == ([], "")
  {
    StripTrimmed("");
  }
}
