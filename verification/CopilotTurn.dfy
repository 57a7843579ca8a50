/** Copilot's JSONL lines turned into run events, and a Copilot turn as far as they are concerned.  Unlike
    Claude's, the rest of its output is translated before the exit code is looked at. */
module CopilotTurn {
  import opened Text
  import opened Jsonl
  import opened Narration
  import opened HandOver
  import opened SandboxExec
  import opened WaitLoop
  import opened TurnRunner
  import opened TurnDelivery
  import opened ClaudeEvents

  /** The parts of a run event that depend on the line; `payload` includes the line's timestamp, if any. */
  datatype CopilotEvent =
    | ToolCall(name: Json, payload: Dict)
    | Reasoning(summary: string, payload: Dict)

  /** `s.partition(".")` without the separator. */
  function Partition(s: string): (string, string) {
    if s == "" then ("", "")
    else if s[0] == '.' then ("", s[1..])
    else var (head, tail) := Partition(s[1..]); ([s[0]] + head, tail)
  }

  /** Python's `a or b`. */
  function Or(a: Json, b: Json): Json {
    if Truthy(a) then a else b
  }

  function WithTimestamp(payload: Dict, line: Dict): Dict {
    if Get(line, "timestamp").Null? then payload else payload["envelope_ts" := Get(line, "timestamp")]
  }

  /** `_classify_one_event`. */
  function LineEvents(line: Dict): (events: seq<CopilotEvent>)
    ensures |events| <= 1
  {
    if !Get(line, "type").Str? then []
    else
      var eventType := Get(line, "type").s;
      var (namespace, verb) := Partition(eventType);
      var data := match Get(line, "data") case Obj(fields) => fields case _ => map[];
      if namespace == "tool" then
        var name := Or(Get(data, "name"), Or(Get(data, "toolName"), Or(Get(data, "tool_name"), Or(Str(verb), Str("unknown")))));
        [CopilotEvent.ToolCall(name, WithTimestamp(data, line))]
      else if eventType == "assistant.message_delta" then
        var text := Or(Get(data, "text"), Get(data, "content"));
        if !text.Str? || text.s == "" then []
        else [CopilotEvent.Reasoning(ClaudeEvents.Head(text.s), WithTimestamp(map["text" := text], line))]
      else []
  }

  function ClassifyLine(): Classify<Dict, CopilotEvent> {
    line => Some(LineEvents(line))
  }

  /** A partition cuts at the first separator. */
  lemma {:induction false} PartitionParts(s: string)
    ensures '.' !in Partition(s).0
    ensures '.' in s ==> s == Partition(s).0 + "." + Partition(s).1
    ensures '.' !in s ==> Partition(s) == (s, "")
  {
    if s != "" && s[0] != '.' {
      PartitionParts(s[1..]);
      assert s == [s[0]] + s[1..];
    }
  }

  lemma {:induction false} PartitionOf(head: string, tail: string)
    requires '.' !in head
    ensures Partition(head + "." + tail) == (head, tail)
  {
    if head == "" {
      assert (head + "." + tail)[1..] == tail;
    } else {
      PartitionOf(head[1..], tail);
      assert head[0] in head && head == [head[0]] + head[1..];
      assert (head + "." + tail)[1..] == head[1..] + "." + tail;
    }
  }

  lemma ToolNamespace(eventType: string)
    ensures Partition(eventType).0 == "tool" <==> eventType == "tool" || "tool." <= eventType
  {
    PartitionParts(eventType);
    if "tool." <= eventType {
      PartitionOf("tool", eventType[5..]);
      assert eventType == "tool" + "." + eventType[5..];
    } else if eventType == "tool" {
      assert '.' !in eventType;
    }
  }

  /** The first of these values that is not falsy. */
  predicate FirstTruthy(values: seq<Json>, value: Json) {
    exists i | 0 <= i < |values| :: value == values[i] && Truthy(value) && forall j | 0 <= j < i :: !Truthy(values[j])
  }

  predicate NamesTool(eventType: string, data: Json, name: Json) {
    var fields := if data.Obj? then data.fields else map[];
    var rest := if "tool." <= eventType then eventType[5..] else "";
    FirstTruthy([Get(fields, "name"), Get(fields, "toolName"), Get(fields, "tool_name"), Str(rest), Str("unknown")], name)
  }

  /** A line becomes a tool call exactly when its type is "tool" or starts with "tool.", whatever its data.  Its
      name is the first that the data gives, else the rest of the type, else "unknown"; its data is kept. */
  lemma ToolLines(line: Dict)
    ensures (LineEvents(line) != [] && LineEvents(line)[0].ToolCall?)
       <==> Get(line, "type").Str? && (Get(line, "type").s == "tool" || "tool." <= Get(line, "type").s)
    ensures LineEvents(line) != [] && LineEvents(line)[0].ToolCall? ==>
              && NamesTool(Get(line, "type").s, Get(line, "data"), LineEvents(line)[0].name)
              && forall key | key != "envelope_ts" ::
                   Get(LineEvents(line)[0].payload, key)
                   == if Get(line, "data").Obj? then Get(Get(line, "data").fields, key) else Null
  {
    if Get(line, "type").Str? {
      var eventType := Get(line, "type").s;
      ToolNamespace(eventType);
      if eventType == "tool" || "tool." <= eventType {
        ToolRest(eventType);
        var data := if Get(line, "data").Obj? then Get(line, "data").fields else map[];
        FirstOf(Get(data, "name"), Get(data, "toolName"), Get(data, "tool_name"), Partition(eventType).1);
      }
    }
  }

  lemma ToolRest(eventType: string)
    requires eventType == "tool" || "tool." <= eventType
    ensures Partition(eventType).1 == if "tool." <= eventType then eventType[5..] else ""
  {
    if "tool." <= eventType {
      PartitionOf("tool", eventType[5..]);
      assert eventType == "tool" + "." + eventType[5..];
    } else {
      PartitionParts(eventType);
    }
  }

  lemma FirstOf(a: Json, b: Json, c: Json, rest: string)
    ensures FirstTruthy([a, b, c, Str(rest), Str("unknown")], Or(a, Or(b, Or(c, Or(Str(rest), Str("unknown"))))))
  {
    var values := [a, b, c, Str(rest), Str("unknown")];
    assert values[0] == a && values[1] == b && values[2] == c && values[3] == Str(rest) && values[4] == Str("unknown");
  }

  /** The text of a message delta: under "text", or, if that is falsy, under "content". */
  predicate SaysText(line: Dict, text: string) {
    && Get(line, "type") == Str("assistant.message_delta") && Get(line, "data").Obj? && text != ""
    && var data := Get(line, "data").fields;
       Get(data, "text") == Str(text) || (!Truthy(Get(data, "text")) && Get(data, "content") == Str(text))
  }

  /** A line is narrated exactly when it is a message delta with such a text, which the event carries whole, with
      a head of at most 160 characters. */
  lemma NarratedLines(line: Dict, text: string)
    ensures SaysText(line, text)
       <==> |LineEvents(line)| == 1 && LineEvents(line)[0].Reasoning? && Get(LineEvents(line)[0].payload, "text") == Str(text)
    ensures SaysText(line, text) ==>
              LineEvents(line)[0].summary
              == if |text| <= REASONING_HEAD_CHARS then text else text[..REASONING_HEAD_CHARS] + "..."
  {
    if Get(line, "type") == Str("assistant.message_delta") {
      DeltaLine(line);
      DeltaSays(line, text);
      assert "text" != "envelope_ts";
    } else {
      OnlyDeltas(line);
    }
  }

  lemma OnlyDeltas(line: Dict)
    requires Get(line, "type") != Str("assistant.message_delta")
    ensures LineEvents(line) == [] || LineEvents(line)[0].ToolCall?
  {
  }

  /** Either kind of event has the line's timestamp, if there is one. */
  lemma TimestampKept(line: Dict)
    requires !Get(line, "timestamp").Null? && LineEvents(line) != []
    ensures Get(LineEvents(line)[0].payload, "envelope_ts") == Get(line, "timestamp")
  {
  }

  /** What the text of a message delta is. */
  function DeltaText(line: Dict): Json {
    var data := if Get(line, "data").Obj? then Get(line, "data").fields else map[];
    Or(Get(data, "text"), Get(data, "content"))
  }

  lemma DeltaSays(line: Dict, text: string)
    requires Get(line, "type") == Str("assistant.message_delta")
    ensures SaysText(line, text) <==> text != "" && DeltaText(line) == Str(text)
  {
  }

  lemma DeltaLine(line: Dict)
    requires Get(line, "type") == Str("assistant.message_delta")
    ensures LineEvents(line) ==
              if DeltaText(line).Str? && DeltaText(line).s != ""
              then [CopilotEvent.Reasoning(ClaudeEvents.Head(DeltaText(line).s), WithTimestamp(map["text" := DeltaText(line)], line))]
              else []
  {
    DeltaIsNoTool();
  }

  lemma DeltaIsNoTool()
    ensures Partition("assistant.message_delta").0 != "tool"
  {
    var delta := "assistant.message_delta";
    ToolNamespace(delta);
    assert delta[0] == 'a';
  }

  /** `_translate_intermediate_events`: line by line, so a batch is what the live path would have narrated. */
  method TranslateIntermediateEvents(lines: seq<Dict>) returns (translated: seq<CopilotEvent>)
    ensures translated == NarrateAll(ClassifyLine(), lines)
  {
    translated := [];
    for i := 0 to |lines|
      invariant translated == NarrateAll(ClassifyLine(), lines[..i])
    {
      assert Init(lines[..i + 1]) == lines[..i];
      translated := translated + LineEvents(lines[i]);
    }
    assert lines[..|lines|] == lines;
  }

  /** A whole turn.  Whenever the output has a line at all, crashed processes and reported errors included,
      what is delivered is the live part and the slice.  In a crashed turn the last line is no terminal line:
      nothing is missing only if it had nothing to narrate. */
  method NarrateTurn(sandbox: Sandbox, loads: Loads<Dict>, writes: nat, timeoutSeconds: real, pollSeconds: real)
    returns (exit: Exit, delivered: seq<CopilotEvent>, events: seq<Dict>,
             streamer: NarrationStreamer<Dict, CopilotEvent>, ghost run: Option<Run>)
    requires sandbox.base64.Sound()
    modifies sandbox
    ensures streamer.Valid() && streamer.consumed <= sandbox.out && streamer.loads == loads
    ensures TurnRan(run, old(sandbox.View()), true, writes, timeoutSeconds, pollSeconds)
    ensures streamer.text == TurnText(run, sandbox.decode)
    ensures exit.Finished? ==> Finishes(run) && run.value.end.out == sandbox.out
    ensures exit.Finished? && CompleteRead(run.value.Log()) ==> streamer.consumed == sandbox.out
    ensures exit.Finished? ==> events == BatchEvents(loads, exit.result.stdout)
    ensures exit.Finished? && events != [] ==>
              Settled(loads, ClassifyLine(), run.value, sandbox.decode, events, delivered)
    ensures var seen := StreamEvents(loads, TurnText(run, sandbox.decode));
            && (exit.Finished? && events == [] ==> delivered == NarrateAll(ClassifyLine(), AllButLast(seen)))
            && (exit.TurnTimeout? || exit.TurnCrashed? ==> run.Some? && delivered == NarrateAll(ClassifyLine(), seen))
            && (exit.Failed? ==> delivered <= NarrateAll(ClassifyLine(), seen))
  {
    ghost var worked, closing, ended;
    exit, streamer, run, worked, closing, ended :=
      RunTurn(sandbox, loads, ClassifyLine(), true, writes, timeoutSeconds, pollSeconds);
    events, delivered := [], streamer.emitted;
    if exit.Finished? {
      events := ParseOutput(loads, exit.result.stdout);
      if events != [] {
        TurnSettles(streamer, exit.result.stdout, run.value, sandbox.decode);
        var translated := TranslateIntermediateEvents(BatchSlice(events, exit.result.streamedLineCount));
        delivered := delivered + translated;
      }
    }
  }

  /** A process that printed one line, a tool call, and crashed: the line was read, and is never delivered. */
  lemma CrashedTurnExample(c: char)
    requires !IsSpace(c) && !IsLineBreak(c)
    ensures var loads: Loads<Dict> := _ => Some(map["type" := Str("tool")]);
            var text := [c] + ['\n'];
            var events := BatchEvents(loads, text);
            && |StreamEvents(loads, text)| == |events| == 1 && |NarrateAll(ClassifyLine(), events)| == 1
            && Delivered(loads, ClassifyLine(), text, events) == []
  {
    var line: Dict := map["type" := Str("tool")];
    var loads: Loads<Dict> := _ => Some(line);
    var text := [c] + ['\n'];
    OneLetter(c);
    SplitAtSeparator([c], "", '\n');
    SplitPlain("", '\n');
    assert text == [c] + ['\n'] + "" && Split(text, '\n') == [[c], ""] && CompleteLines(text) == [[c]];
    assert [[c]][1..] == [] && Accepted(loads, [[c]]) == [line];
    assert text + "" == text && OpenLine(text) + "" == "";
    StripTrimmed("");
    SplitPlain("", '\n');
    forall l | l in Split(text, '\n') ensures NoBreak(Strip(l)) { }
    StreamIsPrefixOfBatch(loads, text, "");
    ToolNamespace("tool");
    assert Init([line]) == [];
  }
}
