/** Claude's JSONL lines turned into run events: live, one line at a time without tool results, and as a
    batch, where every tool call is given the result that the same batch holds for it. */
module ClaudeEvents {
  import opened Text
  import opened Narration

  datatype Json = Null | Bool(b: bool) | Int(i: int) | Float(r: real) | Str(s: string) | Arr(items: seq<Json>) | Obj(fields: Dict)
  type Dict = map<string, Json>

  /** `d.get(key)`: a missing key and an explicit null are the same `None`. */
  function Get(d: Dict, key: string): Json {
    if key in d then d[key] else Null
  }

  predicate Truthy(j: Json) {
    match j
    case Null => false
    case Bool(b) => b
    case Int(i) => i != 0
    case Float(r) => r != 0.0
    case Str(s) => s != ""
    case Arr(items) => items != []
    case Obj(fields) => fields != map[]
  }

  /** A tool_result block and the timestamp of the line it came on. */
  datatype ToolResult = ToolResult(content: Json, isError: Json, timestamp: Json)

  /** The parts of a RunEvent that depend on the line. */
  datatype RunEvent =
    | Reasoning(kind: string, text: string, summary: string)
    | ToolCall(name: Json, input: Json, result: Option<ToolResult>)

  type Results = map<string, ToolResult>

  const REASONING_HEAD_CHARS := 160

  /** `message.content` when it has the expected shape. */
  function Blocks(line: Dict): seq<Json> {
    match Get(line, "message")
    case Obj(message) => (match Get(message, "content") case Arr(items) => items case _ => [])
    case _ => []
  }

  predicate HasType(block: Json, t: string) {
    block.Obj? && Get(block.fields, "type") == Str(t)
  }

  /** A thinking or text block's text; empty when there is nothing to narrate. */
  function NarrationText(block: Json): string {
    if !block.Obj? then "" else
    var text := Get(block.fields, if HasType(block, "thinking") then "thinking" else "text");
    if text.Str? then text.s else ""
  }

  function Head(text: string): string {
    if |text| > REASONING_HEAD_CHARS then text[..REASONING_HEAD_CHARS] + "..." else text
  }

  /** The one event of a block, if any. */
  function BlockEvent(block: Json, results: Results): Option<RunEvent> {
    if HasType(block, "thinking") || HasType(block, "text") then
      var text := NarrationText(block);
      if text == "" then None else Some(Reasoning(Get(block.fields, "type").s, text, Head(text)))
    else if HasType(block, "tool_use") then
      var name := Get(block.fields, "name");
      var id := Get(block.fields, "id");
      Some(ToolCall(if Truthy(name) then name else Str("unknown"), Get(block.fields, "input"),
                    if id.Str? && id.s in results then Some(results[id.s]) else None))
    else None
  }

  function BlockEvents(blocks: seq<Json>, results: Results): seq<RunEvent> {
    if blocks == [] then []
    else
      BlockEvents(Init(blocks), results) +
      match BlockEvent(Last(blocks), results) { case None => [] case Some(event) => [event] }
  }

  function AllBlocks(lines: seq<Dict>): seq<Json> {
    if lines == [] then [] else AllBlocks(Init(lines)) + Blocks(Last(lines))
  }

  /** `_classify_one_event`. */
  method ClassifyOneEvent(line: Dict, results: Results) returns (events: seq<RunEvent>)
    ensures events == BlockEvents(Blocks(line), results)
  {
    events := [];
    var message := Get(line, "message");
    if !message.Obj? { return; }
    var content := Get(message.fields, "content");
    if !content.Arr? { return; }
    var blocks := content.items;
    for i := 0 to |blocks|
      invariant events == BlockEvents(blocks[..i], results)
    {
      var block := blocks[i];
      assert Init(blocks[..i + 1]) == blocks[..i];
      if !block.Obj? { continue; }
      if HasType(block, "thinking") || HasType(block, "text") {
        var text := NarrationText(block);
        if text == "" { continue; }
        events := events + [Reasoning(Get(block.fields, "type").s, text, Head(text))];
        continue;
      }
      if !HasType(block, "tool_use") { continue; }
      var name := Get(block.fields, "name");
      var id := Get(block.fields, "id");
      var result := if id.Str? && id.s in results then Some(results[id.s]) else None;
      events := events + [ToolCall(if Truthy(name) then name else Str("unknown"), Get(block.fields, "input"), result)];
    }
    assert blocks[..|blocks|] == blocks;
  }

  /** The tool results of a batch, in the order they appear. */
  datatype Keyed = Keyed(id: string, result: ToolResult)

  predicate IsResult(block: Json) {
    HasType(block, "tool_result") && Get(block.fields, "tool_use_id").Str?
  }

  function KeyedResult(line: Dict, block: Json): Keyed
    requires IsResult(block)
  {
    Keyed(Get(block.fields, "tool_use_id").s,
          ToolResult(Get(block.fields, "content"), Get(block.fields, "is_error"), Get(line, "timestamp")))
  }

  function LineResults(line: Dict, blocks: seq<Json>): seq<Keyed> {
    if blocks == [] then []
    else LineResults(line, Init(blocks)) + if IsResult(Last(blocks)) then [KeyedResult(line, Last(blocks))] else []
  }

  function BatchResults(lines: seq<Dict>): seq<Keyed> {
    if lines == [] then []
    else BatchResults(Init(lines)) + LineResults(Last(lines), Blocks(Last(lines)))
  }

  /** A lookup after more results: a later one replaces an earlier one with its id. */
  function Updated(lookup: Results, more: seq<Keyed>): Results {
    if more == [] then lookup else Updated(lookup, Init(more))[Last(more).id := Last(more).result]
  }

  function Lookup(found: seq<Keyed>): Results {
    Updated(map[], found)
  }

  /** `found[i]` is the last result for `id`. */
  predicate LastFor(found: seq<Keyed>, id: string, i: nat) {
    i < |found| && found[i].id == id && forall j | i < j < |found| :: found[j].id != id
  }

  /** It holds, for every id, the last result found for it, and nothing else. */
  lemma {:induction false} LookupHasLast(found: seq<Keyed>, id: string)
    ensures id in Lookup(found) <==> exists i: nat :: LastFor(found, id, i)
    ensures forall i: nat | LastFor(found, id, i) :: Lookup(found)[id] == found[i].result
  {
    if found != [] {
      LookupHasLast(Init(found), id);
      assert Last(found).id == id <==> LastFor(found, id, |found| - 1);
      if Last(found).id != id {
        assert forall i: nat :: LastFor(found, id, i) <==> LastFor(Init(found), id, i);
      }
    }
  }

  lemma UpdatedNext(lookup: Results, more: seq<Keyed>, next: Keyed)
    ensures Updated(lookup, more + [next]) == Updated(lookup, more)[next.id := next.result]
  {
    assert Init(more + [next]) == more;
  }

  lemma {:induction false} UpdatedConcat(lookup: Results, a: seq<Keyed>, b: seq<Keyed>)
    ensures Updated(lookup, a + b) == Updated(Updated(lookup, a), b)
  {
    if b == [] {
      assert a + b == a;
    } else {
      UpdatedConcat(lookup, a, Init(b));
      assert Init(a + b) == a + Init(b) && Last(a + b) == Last(b);
    }
  }

  /** The results of one line, on top of those found before it. */
  method CorrelateLine(line: Dict, blocks: seq<Json>, before: Results) returns (lookup: Results)
    ensures lookup == Updated(before, LineResults(line, blocks))
  {
    lookup := before;
    for j := 0 to |blocks|
      invariant lookup == Updated(before, LineResults(line, blocks[..j]))
    {
      assert Init(blocks[..j + 1]) == blocks[..j] && Last(blocks[..j + 1]) == blocks[j];
      if !IsResult(blocks[j]) {
        assert LineResults(line, blocks[..j + 1]) == LineResults(line, blocks[..j]);
        continue;
      }
      var next := KeyedResult(line, blocks[j]);
      assert LineResults(line, blocks[..j + 1]) == LineResults(line, blocks[..j]) + [next];
      UpdatedNext(before, LineResults(line, blocks[..j]), next);
      lookup := lookup[next.id := next.result];
    }
    assert blocks[..|blocks|] == blocks;
  }

  /** First pass: the correlation lookup of a whole batch. */
  method CorrelateResults(lines: seq<Dict>) returns (lookup: Results)
    ensures lookup == Lookup(BatchResults(lines))
  {
    lookup := map[];
    for i := 0 to |lines|
      invariant lookup == Lookup(BatchResults(lines[..i]))
    {
      assert Init(lines[..i + 1]) == lines[..i] && Last(lines[..i + 1]) == lines[i];
      UpdatedConcat(map[], BatchResults(lines[..i]), LineResults(lines[i], Blocks(lines[i])));
      var message := Get(lines[i], "message");
      if !message.Obj? { continue; }
      var content := Get(message.fields, "content");
      if !content.Arr? { continue; }
      lookup := CorrelateLine(lines[i], content.items, lookup);
    }
    assert lines[..|lines|] == lines;
  }

  /** `_translate_intermediate_events`: correlate the whole batch, then classify every line with it. */
  method TranslateIntermediateEvents(lines: seq<Dict>) returns (translated: seq<RunEvent>)
    ensures translated == BlockEvents(AllBlocks(lines), Lookup(BatchResults(lines)))
    ensures var ps := Positions(Speaks, lines);
            |translated| == |ps| && forall k | 0 <= k < |ps| :: Tells(translated[k], lines, ps[k])
  {
    var results := CorrelateResults(lines);
    TranslationTells(lines);
    translated := [];
    for i := 0 to |lines|
      invariant translated == BlockEvents(AllBlocks(lines[..i]), results)
    {
      assert Init(lines[..i + 1]) == lines[..i];
      var events := ClassifyOneEvent(lines[i], results);
      BlockEventsConcat(AllBlocks(lines[..i]), Blocks(lines[i]), results);
      translated := translated + events;
    }
    assert lines[..|lines|] == lines;
  }

  lemma {:induction false} BlockEventsConcat(a: seq<Json>, b: seq<Json>, results: Results)
    ensures BlockEvents(a + b, results) == BlockEvents(a, results) + BlockEvents(b, results)
  {
    if b == [] {
      assert a + b == a;
    } else {
      assert Init(a + b) == a + Init(b) && Last(a + b) == Last(b);
      BlockEventsConcat(a, Init(b), results);
    }
  }

  // ---- what a batch translation means ----

  /** Block `block` of line `line` of a batch. */
  datatype Pos = Pos(line: nat, block: nat)

  predicate Earlier(p: Pos, q: Pos) {
    p.line < q.line || (p.line == q.line && p.block < q.block)
  }

  predicate InBatch(lines: seq<Dict>, p: Pos) {
    p.line < |lines| && p.block < |Blocks(lines[p.line])|
  }

  function At(lines: seq<Dict>, p: Pos): Json
    requires InBatch(lines, p)
  {
    Blocks(lines[p.line])[p.block]
  }

  function LinePositions(keep: Json -> bool, line: nat, blocks: seq<Json>): seq<Pos> {
    if blocks == [] then []
    else LinePositions(keep, line, Init(blocks)) + if keep(Last(blocks)) then [Pos(line, |blocks| - 1)] else []
  }

  /** Where the blocks are that satisfy `keep`, in order. */
  function Positions(keep: Json -> bool, lines: seq<Dict>): seq<Pos> {
    if lines == [] then []
    else Positions(keep, Init(lines)) + LinePositions(keep, |lines| - 1, Blocks(Last(lines)))
  }

  predicate InOrder(ps: seq<Pos>) {
    forall i, j | 0 <= i < j < |ps| :: Earlier(ps[i], ps[j])
  }

  lemma InOrderConcat(a: seq<Pos>, b: seq<Pos>)
    requires InOrder(a) && InOrder(b) && forall p, q | p in a && q in b :: Earlier(p, q)
    ensures InOrder(a + b)
  {
    forall i, j | 0 <= i < j < |a + b|
      ensures Earlier((a + b)[i], (a + b)[j])
    {
      if i < |a| <= j {
        assert a[i] in a && b[j - |a|] in b;
      }
    }
  }

  lemma {:induction false} LinePositionsAre(keep: Json -> bool, line: nat, blocks: seq<Json>)
    ensures InOrder(LinePositions(keep, line, blocks))
    ensures forall p :: p in LinePositions(keep, line, blocks) <==> p.line == line && p.block < |blocks| && keep(blocks[p.block])
  {
    if blocks != [] {
      LinePositionsAre(keep, line, Init(blocks));
      var front, more := LinePositions(keep, line, Init(blocks)), if keep(Last(blocks)) then [Pos(line, |blocks| - 1)] else [];
      InOrderConcat(front, more);
      forall p: Pos
        ensures p in front + more <==> p.line == line && p.block < |blocks| && keep(blocks[p.block])
      {
        assert p in front + more <==> p in front || p in more;
      }
    }
  }

  lemma InFront(lines: seq<Dict>, p: Pos)
    requires lines != [] && p.line + 1 < |lines|
    ensures InBatch(lines, p) <==> InBatch(Init(lines), p)
    ensures InBatch(lines, p) ==> At(lines, p) == At(Init(lines), p) && lines[p.line] == Init(lines)[p.line]
  {
    assert Init(lines)[p.line] == lines[p.line];
  }

  /** All of them, and nothing else, line by line and block by block. */
  lemma {:induction false} PositionsAre(keep: Json -> bool, lines: seq<Dict>)
    ensures InOrder(Positions(keep, lines))
    ensures forall p :: p in Positions(keep, lines) <==> InBatch(lines, p) && keep(At(lines, p))
  {
    if lines != [] {
      var last := |lines| - 1;
      PositionsAre(keep, Init(lines));
      LinePositionsAre(keep, last, Blocks(Last(lines)));
      var front, more := Positions(keep, Init(lines)), LinePositions(keep, last, Blocks(Last(lines)));
      InOrderConcat(front, more);
      forall p: Pos
        ensures p in front + more <==> InBatch(lines, p) && keep(At(lines, p))
      {
        assert p in front + more <==> p in front || p in more;
        if p.line < last { InFront(lines, p); }
      }
    }
  }

  /** The blocks that become events: tool calls, and thinking or text blocks that say something. */
  predicate Speaks(block: Json) {
    && block.Obj?
    && var f := block.fields;
       || Get(f, "type") == Str("tool_use")
       || (exists kind | kind in {"thinking", "text"} ::
             Get(f, "type") == Str(kind) && Get(f, kind).Str? && Get(f, kind) != Str(""))
  }

  /** What an event says about its block, given the results it may carry. */
  predicate Shows(event: RunEvent, block: Json, results: Results) {
    && block.Obj?
    && var f := block.fields;
       match event
       case Reasoning(kind, text, summary) =>
         && kind in {"thinking", "text"} && Get(f, "type") == Str(kind) && Get(f, kind) == Str(text) && text != ""
         && summary == if |text| <= REASONING_HEAD_CHARS then text else text[..REASONING_HEAD_CHARS] + "..."
       case ToolCall(name, input, result) =>
         && Get(f, "type") == Str("tool_use") && input == Get(f, "input")
         && name == (if Truthy(Get(f, "name")) then Get(f, "name") else Str("unknown"))
         && result == if Get(f, "id").Str? && Get(f, "id").s in results then Some(results[Get(f, "id").s]) else None
  }

  lemma {:induction false} LineShown(line: nat, blocks: seq<Json>, results: Results)
    ensures var ps, events := LinePositions(Speaks, line, blocks), BlockEvents(blocks, results);
            && |events| == |ps|
            && forall k | 0 <= k < |ps| :: ps[k].block < |blocks| && Shows(events[k], blocks[ps[k].block], results)
  {
    if blocks != [] {
      LineShown(line, Init(blocks), results);
      SpeaksIsShown(Last(blocks), results);
    }
  }

  lemma SpeaksIsShown(block: Json, results: Results)
    ensures Speaks(block) <==> BlockEvent(block, results).Some?
    ensures BlockEvent(block, results).Some? ==> Shows(BlockEvent(block, results).value, block, results)
  {
    if block.Obj? && Get(block.fields, "type").Str? {
      assert Get(block.fields, "type").s in {"thinking", "text"} <==> HasType(block, "thinking") || HasType(block, "text");
    }
  }

  /** The events of a batch show the blocks at these positions. */
  predicate AllShown(events: seq<RunEvent>, lines: seq<Dict>, ps: seq<Pos>, results: Results) {
    && |events| == |ps|
    && forall k | 0 <= k < |ps| :: InBatch(lines, ps[k]) && Shows(events[k], At(lines, ps[k]), results)
  }

  lemma ShownInFront(events: seq<RunEvent>, lines: seq<Dict>, ps: seq<Pos>, results: Results)
    requires lines != [] && AllShown(events, Init(lines), ps, results)
    ensures AllShown(events, lines, ps, results)
  {
    forall k | 0 <= k < |ps|
      ensures InBatch(lines, ps[k]) && Shows(events[k], At(lines, ps[k]), results)
    {
      InFront(lines, ps[k]);
    }
  }

  lemma ShownInLast(lines: seq<Dict>, results: Results)
    requires lines != []
    ensures var blocks := Blocks(Last(lines));
            AllShown(BlockEvents(blocks, results), lines, LinePositions(Speaks, |lines| - 1, blocks), results)
  {
    var blocks := Blocks(Last(lines));
    var ps := LinePositions(Speaks, |lines| - 1, blocks);
    LineShown(|lines| - 1, blocks, results);
    LinePositionsAre(Speaks, |lines| - 1, blocks);
    forall k | 0 <= k < |ps| ensures ps[k].line == |lines| - 1 { assert ps[k] in ps; }
  }

  lemma AllShownConcat(a: seq<RunEvent>, b: seq<RunEvent>, lines: seq<Dict>, ps: seq<Pos>, qs: seq<Pos>, results: Results)
    requires AllShown(a, lines, ps, results) && AllShown(b, lines, qs, results)
    ensures AllShown(a + b, lines, ps + qs, results)
  {
    forall k | 0 <= k < |ps + qs|
      ensures InBatch(lines, (ps + qs)[k]) && Shows((a + b)[k], At(lines, (ps + qs)[k]), results)
    {
      assert k >= |ps| ==> (ps + qs)[k] == qs[k - |ps|] && (a + b)[k] == b[k - |ps|];
    }
  }

  lemma {:induction false} BatchShown(lines: seq<Dict>, results: Results)
    ensures AllShown(BlockEvents(AllBlocks(lines), results), lines, Positions(Speaks, lines), results)
  {
    if lines != [] {
      var front, blocks := Init(lines), Blocks(Last(lines));
      BatchShown(front, results);
      var events, ps := BlockEvents(AllBlocks(front), results), Positions(Speaks, front);
      ShownInFront(events, lines, ps, results);
      ShownInLast(lines, results);
      BlockEventsConcat(AllBlocks(front), blocks, results);
      AllShownConcat(events, BlockEvents(blocks, results), lines, ps, LinePositions(Speaks, |lines| - 1, blocks), results);
    }
  }

  /** The block at `p` is a result for the tool call `id`. */
  predicate Gives(lines: seq<Dict>, p: Pos, id: string) {
    && InBatch(lines, p) && At(lines, p).Obj?
    && Get(At(lines, p).fields, "type") == Str("tool_result") && Get(At(lines, p).fields, "tool_use_id") == Str(id)
  }

  /** The last one in the batch. */
  ghost predicate GivesLast(lines: seq<Dict>, p: Pos, id: string) {
    Gives(lines, p, id) && forall q | Gives(lines, q, id) :: q == p || Earlier(q, p)
  }

  /** Its content and error flag, with the timestamp of its line. */
  function Given(lines: seq<Dict>, p: Pos): ToolResult
    requires InBatch(lines, p) && At(lines, p).Obj?
  {
    var f := At(lines, p).fields;
    ToolResult(Get(f, "content"), Get(f, "is_error"), Get(lines[p.line], "timestamp"))
  }

  predicate AnyResult(block: Json) {
    block.Obj? && Get(block.fields, "type") == Str("tool_result") && Get(block.fields, "tool_use_id").Str?
  }

  lemma {:induction false} LineResultsFound(n: nat, line: Dict, blocks: seq<Json>)
    ensures var ps, found := LinePositions(AnyResult, n, blocks), LineResults(line, blocks);
            && |found| == |ps|
            && forall k | 0 <= k < |ps| ::
                 && ps[k].line == n && ps[k].block < |blocks| && IsResult(blocks[ps[k].block])
                 && found[k] == KeyedResult(line, blocks[ps[k].block])
  {
    if blocks != [] {
      LineResultsFound(n, line, Init(blocks));
    }
  }

  /** The results found are those given at these positions. */
  predicate AllGiven(found: seq<Keyed>, lines: seq<Dict>, ps: seq<Pos>) {
    && |found| == |ps|
    && forall k | 0 <= k < |ps| :: Gives(lines, ps[k], found[k].id) && found[k].result == Given(lines, ps[k])
  }

  lemma GivenInFront(found: seq<Keyed>, lines: seq<Dict>, ps: seq<Pos>)
    requires lines != [] && AllGiven(found, Init(lines), ps)
    ensures AllGiven(found, lines, ps)
  {
    forall k | 0 <= k < |ps|
      ensures Gives(lines, ps[k], found[k].id) && found[k].result == Given(lines, ps[k])
    {
      InFront(lines, ps[k]);
    }
  }

  lemma GivenInLast(lines: seq<Dict>)
    requires lines != []
    ensures var line := Last(lines);
            AllGiven(LineResults(line, Blocks(line)), lines, LinePositions(AnyResult, |lines| - 1, Blocks(line)))
  {
    var n, line := |lines| - 1, Last(lines);
    var ps, found := LinePositions(AnyResult, n, Blocks(line)), LineResults(line, Blocks(line));
    LineResultsFound(n, line, Blocks(line));
    forall k | 0 <= k < |ps|
      ensures Gives(lines, ps[k], found[k].id) && found[k].result == Given(lines, ps[k])
    {
      KeyedIsGiven(lines, ps[k]);
    }
  }

  lemma KeyedIsGiven(lines: seq<Dict>, p: Pos)
    requires InBatch(lines, p) && IsResult(At(lines, p))
    ensures var keyed := KeyedResult(lines[p.line], At(lines, p));
            Gives(lines, p, keyed.id) && keyed.result == Given(lines, p)
  {
  }

  lemma AllGivenConcat(a: seq<Keyed>, b: seq<Keyed>, lines: seq<Dict>, ps: seq<Pos>, qs: seq<Pos>)
    requires AllGiven(a, lines, ps) && AllGiven(b, lines, qs)
    ensures AllGiven(a + b, lines, ps + qs)
  {
    forall k | 0 <= k < |ps + qs|
      ensures Gives(lines, (ps + qs)[k], (a + b)[k].id) && (a + b)[k].result == Given(lines, (ps + qs)[k])
    {
      assert k >= |ps| ==> (ps + qs)[k] == qs[k - |ps|] && (a + b)[k] == b[k - |ps|];
    }
  }

  lemma {:induction false} ResultsFound(lines: seq<Dict>)
    ensures AllGiven(BatchResults(lines), lines, Positions(AnyResult, lines))
  {
    if lines != [] {
      var front, line := Init(lines), Last(lines);
      ResultsFound(front);
      GivenInFront(BatchResults(front), lines, Positions(AnyResult, front));
      GivenInLast(lines);
      AllGivenConcat(BatchResults(front), LineResults(line, Blocks(line)), lines, Positions(AnyResult, front),
                     LinePositions(AnyResult, |lines| - 1, Blocks(line)));
    }
  }

  /** A given result is among those found. */
  lemma GivenIsFound(lines: seq<Dict>, p: Pos, id: string) returns (k: nat)
    requires Gives(lines, p, id)
    ensures k < |BatchResults(lines)| == |Positions(AnyResult, lines)|
    ensures Positions(AnyResult, lines)[k] == p && BatchResults(lines)[k].id == id
  {
    var ps := Positions(AnyResult, lines);
    ResultsFound(lines);
    PositionsAre(AnyResult, lines);
    assert p in ps;
    k :| 0 <= k < |ps| && ps[k] == p;
    assert Gives(lines, ps[k], BatchResults(lines)[k].id);
  }

  /** And the last one found for an id is the last one given. */
  lemma LastFoundIsLast(lines: seq<Dict>, id: string, i: nat)
    requires LastFor(BatchResults(lines), id, i)
    ensures i < |Positions(AnyResult, lines)| && GivesLast(lines, Positions(AnyResult, lines)[i], id)
    ensures BatchResults(lines)[i].result == Given(lines, Positions(AnyResult, lines)[i])
  {
    var ps := Positions(AnyResult, lines);
    ResultsFound(lines);
    PositionsAre(AnyResult, lines);
    assert Gives(lines, ps[i], id);
    forall q | Gives(lines, q, id)
      ensures q == ps[i] || Earlier(q, ps[i])
    {
      var k := GivenIsFound(lines, q, id);
    }
  }

  /** The lookup of a batch has an id exactly when some block gives a result for it, and then the last one. */
  lemma LookupOfBatch(lines: seq<Dict>, id: string)
    ensures id in Lookup(BatchResults(lines)) <==> exists p :: Gives(lines, p, id)
    ensures id in Lookup(BatchResults(lines)) ==>
              exists p :: GivesLast(lines, p, id) && Lookup(BatchResults(lines))[id] == Given(lines, p)
  {
    var found := BatchResults(lines);
    LookupHasLast(found, id);
    if p :| Gives(lines, p, id) {
      var k := GivenIsFound(lines, p, id);
      LastOne(found, id, k);
    }
    if i: nat :| LastFor(found, id, i) {
      LastFoundIsLast(lines, id, i);
    }
  }

  lemma {:induction false} LastOne(found: seq<Keyed>, id: string, k: nat)
    requires k < |found| && found[k].id == id
    ensures exists i: nat :: LastFor(found, id, i)
    decreases |found| - k
  {
    if j: nat :| k < j < |found| && found[j].id == id {
      LastOne(found, id, j);
    } else {
      assert LastFor(found, id, k);
    }
  }

  /** A tool call carries the last result that any block of any line gives for its id, and none exactly when there
      is none. */
  ghost predicate Carries(result: Option<ToolResult>, lines: seq<Dict>, id: Json) {
    match result
    case None => id.Str? ==> forall q :: !Gives(lines, q, id.s)
    case Some(r) => id.Str? && exists q :: GivesLast(lines, q, id.s) && r == Given(lines, q)
  }

  /** What an event of a translated batch says about the block at `p`. */
  ghost predicate Tells(event: RunEvent, lines: seq<Dict>, p: Pos) {
    && InBatch(lines, p) && Shows(Erase(event), At(lines, p), map[])
    && (event.ToolCall? ==> Carries(event.result, lines, Get(At(lines, p).fields, "id")))
  }

  lemma ShownTells(event: RunEvent, lines: seq<Dict>, p: Pos)
    requires InBatch(lines, p) && Shows(event, At(lines, p), Lookup(BatchResults(lines)))
    ensures Tells(event, lines, p)
  {
    var id := Get(At(lines, p).fields, "id");
    if id.Str? {
      LookupOfBatch(lines, id.s);
    }
  }

  /** A batch translates to one event per block that speaks, in order, each of which tells its block. */
  lemma TranslationTells(lines: seq<Dict>)
    ensures var events, ps := BlockEvents(AllBlocks(lines), Lookup(BatchResults(lines))), Positions(Speaks, lines);
            |events| == |ps| && forall k | 0 <= k < |ps| :: Tells(events[k], lines, ps[k])
  {
    var results := Lookup(BatchResults(lines));
    BatchShown(lines, results);
    forall k | 0 <= k < |Positions(Speaks, lines)|
      ensures Tells(BlockEvents(AllBlocks(lines), results)[k], lines, Positions(Speaks, lines)[k])
    {
      ShownTells(BlockEvents(AllBlocks(lines), results)[k], lines, Positions(Speaks, lines)[k]);
    }
  }

  /** The blocks of a line are the list under "content" of the object under "message". */
  lemma BlocksOfLine(line: Dict)
    ensures Blocks(line) != [] ==>
              && "message" in line && line["message"].Obj? && "content" in line["message"].fields
              && line["message"].fields["content"] == Arr(Blocks(line))
    ensures forall message: Dict, items | "message" in line && line["message"] == Obj(message)
                                          && "content" in message && message["content"] == Arr(items) :: Blocks(line) == items
  {
  }

  /** Python's falsy JSON values. */
  lemma Falsy(j: Json)
    ensures !Truthy(j) <==> j in {Null, Bool(false), Int(0), Float(0.0), Str(""), Arr([]), Obj(map[])}
  {
  }

  function Erase(event: RunEvent): RunEvent {
    if event.ToolCall? then event.(result := None) else event
  }

  function EraseAll(events: seq<RunEvent>): seq<RunEvent> {
    seq(|events|, i requires 0 <= i < |events| => Erase(events[i]))
  }

  lemma EraseConcat(a: seq<RunEvent>, b: seq<RunEvent>)
    ensures EraseAll(a + b) == EraseAll(a) + EraseAll(b)
  {
  }

  /** `_classify_line`: the live path classifies one line and knows no tool results. */
  function ClassifyLine(): Classify<Dict, RunEvent> {
    line => Some(BlockEvents(Blocks(line), map[]))
  }

  lemma {:induction false} EraseBlockEvents(blocks: seq<Json>, results: Results)
    ensures EraseAll(BlockEvents(blocks, results)) == BlockEvents(blocks, map[])
  {
    if blocks != [] {
      EraseBlockEvents(Init(blocks), results);
    }
  }

  /** Apart from the results, translating a batch is the same as narrating its lines one by one, so it
      does not matter how a list of lines is divided between the live and the batch path. */
  lemma {:induction false} BatchIsLive(lines: seq<Dict>, results: Results)
    ensures EraseAll(BlockEvents(AllBlocks(lines), results)) == NarrateAll(ClassifyLine(), lines)
  {
    EraseBlockEvents(AllBlocks(lines), results);
    if lines != [] {
      BatchIsLive(Init(lines), results);
      EraseBlockEvents(AllBlocks(Init(lines)), results);
      BlockEventsConcat(AllBlocks(Init(lines)), Blocks(Last(lines)), map[]);
    }
  }

  /** What was narrated live has no results to erase. */
  lemma NarratedIsErased(lines: seq<Dict>)
    ensures EraseAll(NarrateAll(ClassifyLine(), lines)) == NarrateAll(ClassifyLine(), lines)
  {
    BatchIsLive(lines, map[]);
    EraseBlockEvents(AllBlocks(lines), map[]);
  }
}
