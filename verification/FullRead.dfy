/** The proof that a session has read a whole file: the line ranges of its Read calls, with defaulted
    offset and window, must together cover every line. */
module FullRead {
  import opened Text
  import opened ClaudeEvents

  /** A 1-based inclusive line range, as a Read call's offset and limit give it. */
  datatype Range = Range(start: int, end: int)

  predicate Before(a: Range, b: Range) {
    a.start < b.start || (a.start == b.start && a.end <= b.end)
  }

  predicate Ordered(ranges: seq<Range>) {
    ranges == [] || ((forall r | r in ranges[1..] :: Before(ranges[0], r)) && Ordered(ranges[1..]))
  }

  function Insert(x: Range, ranges: seq<Range>): (r: seq<Range>)
    requires Ordered(ranges)
    ensures Ordered(r) && multiset(r) == multiset(ranges) + multiset{x}
    ensures forall y :: y in r <==> y == x || y in ranges
  {
    if ranges == [] || Before(x, ranges[0]) then
      assert ([x] + ranges)[1..] == ranges;
      assert forall y | y in ranges :: y == ranges[0] || y in ranges[1..];
      [x] + ranges
    else
      var rest := Insert(x, ranges[1..]);
      assert ranges == [ranges[0]] + ranges[1..];
      assert ([ranges[0]] + rest)[1..] == rest;
      [ranges[0]] + rest
  }

  /** `sorted(ranges)`. */
  function Sorted(ranges: seq<Range>): (r: seq<Range>)
    ensures Ordered(r) && multiset(r) == multiset(ranges)
  {
    if ranges == [] then []
    else
      assert ranges == [ranges[0]] + ranges[1..];
      Insert(ranges[0], Sorted(ranges[1..]))
  }

  predicate Holds(range: Range, line: int) {
    range.start <= line <= range.end
  }

  predicate Read(ranges: seq<Range>, line: int) {
    exists i | 0 <= i < |ranges| :: Holds(ranges[i], line)
  }

  lemma ReadAfterSorting(ranges: seq<Range>, line: int)
    ensures Read(Sorted(ranges), line) <==> Read(ranges, line)
  {
    var sorted := Sorted(ranges);
    assert forall r :: r in sorted <==> r in multiset(sorted);
    assert forall r :: r in ranges <==> r in multiset(ranges);
    if Read(sorted, line) {
      var i :| 0 <= i < |sorted| && Holds(sorted[i], line);
      assert sorted[i] in ranges;
    }
    if Read(ranges, line) {
      var i :| 0 <= i < |ranges| && Holds(ranges[i], line);
      assert ranges[i] in sorted;
    }
  }

  /** `_covers_whole_file`, exact for all integer ranges and any number of lines. */
  method CoversWholeFile(ranges: seq<Range>, totalLines: int) returns (covered: bool)
    ensures covered <==> forall line | 1 <= line <= totalLines :: Read(ranges, line)
  {
    var sorted := Sorted(ranges);
    forall line: int {
      ReadAfterSorting(ranges, line);
    }
    var coveredThrough := 0;
    var i := 0;
    while i < |sorted|
      invariant 0 <= i <= |sorted| && coveredThrough >= 0 && Ordered(sorted[i..])
      invariant forall line | 1 <= line <= coveredThrough :: Read(sorted, line)
      invariant forall j | 0 <= j < i :: sorted[j].end <= coveredThrough
    {
      if sorted[i].start > coveredThrough + 1 {
        forall j | 0 <= j < |sorted|
          ensures !Holds(sorted[j], coveredThrough + 1)
        {
          if j > i {
            assert sorted[i..][0] == sorted[i];
            assert sorted[j] == sorted[i..][1..][j - i - 1] && sorted[j] in sorted[i..][1..];
          }
        }
        break;
      }
      assert sorted[i..][1..] == sorted[i + 1..];
      forall line | coveredThrough < line <= sorted[i].end
        ensures Read(sorted, line)
      {
        assert Holds(sorted[i], line);
      }
      coveredThrough := if sorted[i].end > coveredThrough then sorted[i].end else coveredThrough;
      i := i + 1;
    }
    covered := coveredThrough >= totalLines;
    assert !Read(sorted, coveredThrough + 1);
  }

  // ---- the Read calls of a transcript ----

  function Slashes(path: string): string {
    seq(|path|, i requires 0 <= i < |path| => if path[i] == '\\' then '/' else path[i])
  }

  function DropSlashes(path: string): string {
    if path != "" && path[0] == '/' then DropSlashes(path[1..]) else path
  }

  function Normalized(path: string): string {
    DropSlashes(Slashes(path))
  }

  predicate EndsWith(s: string, suffix: string) {
    |suffix| <= |s| && s[|s| - |suffix|..] == suffix
  }

  predicate SamePath(path: string, target: string) {
    path == target || EndsWith(path, "/" + target)
  }

  /** Python's `isinstance(x, int) and x > 0`; a bool is an int. */
  function PositiveInt(j: Json): Option<int> {
    if j.Int? && j.i > 0 then Some(j.i) else if j == Bool(true) then Some(1) else None
  }

  /** The range of one content block, if it is a Read of the target. */
  function ReadRange(block: Json, target: string, window: int): Option<Range> {
    if !HasType(block, "tool_use") || Get(block.fields, "name") != Str("Read") then None
    else
      var input := Get(block.fields, "input");
      if !input.Obj? then None
      else
        var path := Get(input.fields, "file_path");
        if !path.Str? || !SamePath(Normalized(path.s), target) then None
        else
          var offset, limit := PositiveInt(Get(input.fields, "offset")), PositiveInt(Get(input.fields, "limit"));
          var start := if offset.Some? then offset.value else 1;
          var span := if limit.Some? then limit.value else window;
          Some(Range(start, start + span - 1))
  }

  function RangesOf(blocks: seq<Json>, target: string, window: int): seq<Range> {
    if blocks == [] then []
    else
      RangesOf(Init(blocks), target, window) +
      match ReadRange(Last(blocks), target, window) { case None => [] case Some(r) => [r] }
  }

  function AssistantBlocks(entry: Dict): seq<Json> {
    if Get(entry, "type") == Str("assistant") then Blocks(entry) else []
  }

  function TranscriptRanges(entries: seq<Dict>, target: string, window: int): seq<Range> {
    if entries == [] then []
    else TranscriptRanges(Init(entries), target, window) + RangesOf(AssistantBlocks(Last(entries)), target, window)
  }

  // ---- what counts as read ----

  /** Block j of entry i reads the target: a Read call of the assistant, of a path that is the target or ends in it. */
  ghost predicate ReadsTarget(entries: seq<Dict>, i: nat, j: nat, target: string) {
    && i < |entries| && Get(entries[i], "type") == Str("assistant")
    && j < |Blocks(entries[i])| && Blocks(entries[i])[j].Obj?
    && var call := Blocks(entries[i])[j].fields;
       && Get(call, "type") == Str("tool_use") && Get(call, "name") == Str("Read")
       && Get(call, "input").Obj? && Get(Get(call, "input").fields, "file_path").Str?
       && Reaches(Normalized(Get(Get(call, "input").fields, "file_path").s), target)
  }

  /** A positive number, or what stands for a missing one; `true` is 1 in Python. */
  function PositiveOr(j: Json, missing: int): int {
    if j == Bool(true) then 1
    else if j.Int? && j.i > 0 then j.i
    else missing
  }

  /** That call reads `line`: from its offset, or line 1, as many lines as its limit says, or the window. */
  ghost predicate CallHolds(entries: seq<Dict>, i: nat, j: nat, target: string, window: int, line: int) {
    && ReadsTarget(entries, i, j, target)
    && var input := Get(Blocks(entries[i])[j].fields, "input").fields;
       var offset, limit := PositiveOr(Get(input, "offset"), 1), PositiveOr(Get(input, "limit"), window);
       offset <= line < offset + limit
  }

  /** The path is the target, or the target below some directory. */
  ghost predicate Reaches(path: string, target: string) {
    path == target || exists above :: path == above + ("/" + target)
  }

  lemma SamePathIs(path: string, target: string)
    ensures SamePath(path, target) <==> Reaches(path, target)
  {
    var suffix := "/" + target;
    if EndsWith(path, suffix) {
      assert path == path[..|path| - |suffix|] + suffix;
    }
    if above :| path == above + suffix {
      assert path[|path| - |suffix|..] == suffix;
    }
  }

  /** A block of the transcript gives a range exactly when it reads the target, and the range holds the lines that
      the call reads. */
  lemma RangeOfCall(entries: seq<Dict>, i: nat, j: nat, target: string, window: int)
    requires i < |entries| && j < |AssistantBlocks(entries[i])|
    ensures var range := ReadRange(AssistantBlocks(entries[i])[j], target, window);
            && (range.Some? <==> ReadsTarget(entries, i, j, target))
            && (range.Some? ==> forall line: int :: Holds(range.value, line) <==> CallHolds(entries, i, j, target, window, line))
  {
    var block := AssistantBlocks(entries[i])[j];
    if block.Obj? && Get(block.fields, "input").Obj? && Get(Get(block.fields, "input").fields, "file_path").Str? {
      SamePathIs(Normalized(Get(Get(block.fields, "input").fields, "file_path").s), target);
    }
  }

  ghost predicate SomeCall(entries: seq<Dict>, target: string) {
    exists i: nat, j: nat :: ReadsTarget(entries, i, j, target)
  }

  ghost predicate LineRead(entries: seq<Dict>, target: string, window: int, line: int) {
    exists i: nat, j: nat :: CallHolds(entries, i, j, target, window, line)
  }

  /** `(entry.get("message") or {}).get(...)`: a message that is neither falsy nor an object has no `get`. */
  predicate RaisesOn(entry: Dict) {
    Get(entry, "type") == Str("assistant") && Truthy(Get(entry, "message")) && !Get(entry, "message").Obj?
  }

  predicate Raises(entries: seq<Dict>) {
    exists i | 0 <= i < |entries| :: RaisesOn(entries[i])
  }

  /** `read_full_file_reads` on a readable transcript: at least one matching Read, and every line read; `None` when
      it raises. */
  method ReadFullFileReads(entries: seq<Dict>, filePath: string, totalLines: int, window: int)
    returns (proved: Option<bool>)
    ensures proved.None? <==> exists i | 0 <= i < |entries| :: Get(entries[i], "type") == Str("assistant")
                                && Truthy(Get(entries[i], "message")) && !Get(entries[i], "message").Obj?
    ensures proved.Some? ==>
              var target := Normalized(filePath);
              proved.value <==> SomeCall(entries, target)
                                && forall line | 1 <= line <= totalLines :: LineRead(entries, target, window, line)
  {
    RangesAreCalls(entries, Normalized(filePath), window);
    var ranges := CollectRanges(entries, Normalized(filePath), window);
    if ranges.None? {
      return None;
    }
    if ranges.value == [] {
      return Some(false);
    }
    var covered := CoversWholeFile(ranges.value, totalLines);
    return Some(covered);
  }

  lemma RangesNext(entries: seq<Dict>, i: nat, target: string, window: int)
    requires i < |entries|
    ensures TranscriptRanges(entries[..i + 1], target, window)
         == TranscriptRanges(entries[..i], target, window) + RangesOf(AssistantBlocks(entries[i]), target, window)
  {
    assert Init(entries[..i + 1]) == entries[..i] && Last(entries[..i + 1]) == entries[i];
  }

  lemma RaisesNext(entries: seq<Dict>, i: nat)
    requires i < |entries|
    ensures Raises(entries[..i + 1]) <==> Raises(entries[..i]) || RaisesOn(entries[i])
  {
    assert entries[..i + 1] == entries[..i] + [entries[i]];
    assert forall j | 0 <= j < i :: entries[..i + 1][j] == entries[..i][j];
    assert entries[..i + 1][i] == entries[i];
  }

  lemma RaisesStays(entries: seq<Dict>, i: nat)
    requires i <= |entries| && Raises(entries[..i])
    ensures Raises(entries)
  {
    assert forall j | 0 <= j < i :: entries[..i][j] == entries[j];
  }

  /** The loop over the transcript. */
  method CollectRanges(entries: seq<Dict>, target: string, window: int) returns (ranges: Option<seq<Range>>)
    ensures ranges == if Raises(entries) then None else Some(TranscriptRanges(entries, target, window))
  {
    var found := [];
    for i := 0 to |entries|
      invariant found == TranscriptRanges(entries[..i], target, window) && !Raises(entries[..i])
    {
      RangesNext(entries, i, target, window);
      RaisesNext(entries, i);
      if RaisesOn(entries[i]) {
        RaisesStays(entries, i + 1);
        return None;
      }
      var more := ReadRanges(AssistantBlocks(entries[i]), target, window);
      found := found + more;
    }
    assert entries[..|entries|] == entries;
    return Some(found);
  }

  /** The inner loop: the ranges of one entry's Read calls. */
  method ReadRanges(blocks: seq<Json>, target: string, window: int) returns (ranges: seq<Range>)
    ensures ranges == RangesOf(blocks, target, window)
  {
    ranges := [];
    for j := 0 to |blocks|
      invariant ranges == RangesOf(blocks[..j], target, window)
    {
      assert Init(blocks[..j + 1]) == blocks[..j] && Last(blocks[..j + 1]) == blocks[j];
      var range := ReadRange(blocks[j], target, window);
      if range.Some? {
        ranges := ranges + [range.value];
      }
    }
    assert blocks[..|blocks|] == blocks;
  }

  predicate Ranges(blocks: seq<Json>, j: nat, target: string, window: int, r: Range) {
    j < |blocks| && ReadRange(blocks[j], target, window) == Some(r)
  }

  lemma {:induction false} RangesOfBlocks(blocks: seq<Json>, target: string, window: int, r: Range)
    ensures r in RangesOf(blocks, target, window) <==> exists j: nat :: Ranges(blocks, j, target, window, r)
  {
    if blocks != [] {
      var front := Init(blocks);
      RangesOfBlocks(front, target, window, r);
      forall j: nat
        ensures Ranges(blocks, j, target, window, r)
           <==> Ranges(front, j, target, window, r) || (j == |front| && ReadRange(Last(blocks), target, window) == Some(r))
      {
      }
      assert Ranges(blocks, |front|, target, window, r) <==> ReadRange(Last(blocks), target, window) == Some(r);
    }
  }

  predicate RangeAt(entries: seq<Dict>, i: nat, j: nat, target: string, window: int, r: Range) {
    i < |entries| && Ranges(AssistantBlocks(entries[i]), j, target, window, r)
  }

  lemma RangeAtFront(entries: seq<Dict>, i: nat, j: nat, target: string, window: int, r: Range)
    requires entries != []
    ensures RangeAt(entries, i, j, target, window, r)
       <==> RangeAt(Init(entries), i, j, target, window, r)
            || (i == |entries| - 1 && Ranges(AssistantBlocks(Last(entries)), j, target, window, r))
  {
    assert i < |entries| - 1 ==> Init(entries)[i] == entries[i];
  }

  lemma {:induction false} RangesOfTranscript(entries: seq<Dict>, target: string, window: int, r: Range)
    ensures r in TranscriptRanges(entries, target, window)
       <==> exists i: nat, j: nat :: RangeAt(entries, i, j, target, window, r)
  {
    if entries != [] {
      var front, blocks := Init(entries), AssistantBlocks(Last(entries));
      RangesOfTranscript(front, target, window, r);
      RangesOfBlocks(blocks, target, window, r);
      if i: nat, j: nat :| RangeAt(front, i, j, target, window, r) {
        RangeAtFront(entries, i, j, target, window, r);
      }
      if j: nat :| Ranges(blocks, j, target, window, r) {
        RangeAtFront(entries, |front|, j, target, window, r);
      }
      if i: nat, j: nat :| RangeAt(entries, i, j, target, window, r) {
        RangeAtFront(entries, i, j, target, window, r);
      }
    }
  }

  /** So the ranges of a transcript are those of its calls: there is one exactly when some call reads the target,
      and a line is in one exactly when some call reads it. */
  lemma RangesAreCalls(entries: seq<Dict>, target: string, window: int)
    ensures TranscriptRanges(entries, target, window) != [] <==> SomeCall(entries, target)
    ensures forall line: int ::
              Read(TranscriptRanges(entries, target, window), line) <==> LineRead(entries, target, window, line)
  {
    var ranges := TranscriptRanges(entries, target, window);
    if ranges != [] {
      var i, j := CallOfRange(entries, target, window, ranges[0]);
    }
    if i: nat, j: nat :| ReadsTarget(entries, i, j, target) {
      var r := RangeOfReader(entries, i, j, target, window);
    }
    forall line: int
      ensures Read(ranges, line) <==> LineRead(entries, target, window, line)
    {
      ReadIsRead(entries, target, window, line);
    }
  }

  lemma ReadIsRead(entries: seq<Dict>, target: string, window: int, line: int)
    ensures Read(TranscriptRanges(entries, target, window), line) <==> LineRead(entries, target, window, line)
  {
    var ranges := TranscriptRanges(entries, target, window);
    if k :| 0 <= k < |ranges| && Holds(ranges[k], line) {
      var i, j := CallOfRange(entries, target, window, ranges[k]);
      assert CallHolds(entries, i, j, target, window, line);
    }
    if i: nat, j: nat :| CallHolds(entries, i, j, target, window, line) {
      var r := RangeOfReader(entries, i, j, target, window);
      var k :| 0 <= k < |ranges| && ranges[k] == r;
      assert Holds(ranges[k], line);
    }
  }

  lemma CallOfRange(entries: seq<Dict>, target: string, window: int, r: Range) returns (i: nat, j: nat)
    requires r in TranscriptRanges(entries, target, window)
    ensures ReadsTarget(entries, i, j, target)
    ensures forall line: int | Holds(r, line) :: CallHolds(entries, i, j, target, window, line)
  {
    RangesOfTranscript(entries, target, window, r);
    i, j :| RangeAt(entries, i, j, target, window, r);
    RangeOfCall(entries, i, j, target, window);
  }

  lemma RangeOfReader(entries: seq<Dict>, i: nat, j: nat, target: string, window: int) returns (r: Range)
    requires ReadsTarget(entries, i, j, target)
    ensures r in TranscriptRanges(entries, target, window)
    ensures forall line: int | CallHolds(entries, i, j, target, window, line) :: Holds(r, line)
  {
    RangeOfCall(entries, i, j, target, window);
    r := ReadRange(AssistantBlocks(entries[i])[j], target, window).value;
    RangesOfTranscript(entries, target, window, r);
    assert RangeAt(entries, i, j, target, window, r);
  }

  /** Normalizing a path turns backslashes into slashes and drops the leading slashes, and only them. */
  lemma {:induction false} NormalizedIs(path: string)
    ensures Normalized(path) == "" || Normalized(path)[0] != '/'
    ensures exists slashes: string ::
              (forall c | c in slashes :: c == '/') && Slashes(path) == slashes + Normalized(path)
    ensures |Slashes(path)| == |path|
    ensures forall i | 0 <= i < |path| :: Slashes(path)[i] == if path[i] == '\\' then '/' else path[i]
  {
    DroppedSlashes(Slashes(path));
    var slashes: string :| (forall c | c in slashes :: c == '/') && Slashes(path) == slashes + DropSlashes(Slashes(path));
  }

  lemma {:induction false} DroppedSlashes(path: string)
    ensures DropSlashes(path) == "" || DropSlashes(path)[0] != '/'
    ensures exists slashes: string :: (forall c | c in slashes :: c == '/') && path == slashes + DropSlashes(path)
  {
    if path != "" && path[0] == '/' {
      DroppedSlashes(path[1..]);
      var slashes: string :| (forall c | c in slashes :: c == '/') && path[1..] == slashes + DropSlashes(path[1..]);
      assert path == (['/'] + slashes) + DropSlashes(path);
    } else {
      assert path == "" + DropSlashes(path);
    }
  }

  /** Extending a transcript never takes a proof away. */
  lemma {:induction false} LongerTranscript(entries: seq<Dict>, more: seq<Dict>, target: string, window: int, line: int)
    ensures TranscriptRanges(entries, target, window) <= TranscriptRanges(entries + more, target, window)
    ensures Read(TranscriptRanges(entries, target, window), line) ==>
              Read(TranscriptRanges(entries + more, target, window), line)
  {
    if more == [] {
      assert entries + more == entries;
    } else {
      assert Init(entries + more) == entries + Init(more);
      LongerTranscript(entries, Init(more), target, window, line);
      var shorter, longer := TranscriptRanges(entries, target, window), TranscriptRanges(entries + more, target, window);
      if Read(shorter, line) {
        var i :| 0 <= i < |shorter| && Holds(shorter[i], line);
        assert longer[i] == shorter[i];
      }
    }
  }
}
