/** APPROVALS.md: an append-only table of signed approvals and the parser that reads it back.  Reading a
    file strips the text at both ends, so the newline after the last row is never there. */
module Approvals {
  import opened Text

  datatype ApprovalRecord = ApprovalRecord(stage: string, runId: string, contentSha256: string, timestamp: string)

  function LStripBars(s: string): string {
    if s != "" && s[0] == '|' then LStripBars(s[1..]) else s
  }

  function RStripBars(s: string): string {
    if s != "" && Last(s) == '|' then RStripBars(Init(s)) else s
  }

  /** The record on one line, if it is a data row. */
  function ParseRow(line: string): Option<ApprovalRecord> {
    if !("| " <= line) || "| Stage" <= line || "|---" <= line then None
    else
      var parts := Split(RStripBars(LStripBars(line)), '|');
      if |parts| != 4 then None
      else Some(ApprovalRecord(Strip(parts[0]), Strip(parts[1]), Strip(parts[2]), Strip(parts[3])))
  }

  function RowsOf(lines: seq<string>): seq<ApprovalRecord> {
    if lines == [] then []
    else
      RowsOf(Init(lines)) + match ParseRow(Last(lines)) { case None => [] case Some(record) => [record] }
  }

  function Rows(raw: string): seq<ApprovalRecord> {
    RowsOf(SplitLines(raw))
  }

  /** `_parse_rows`. */
  method ParseRows(raw: string) returns (records: seq<ApprovalRecord>)
    ensures records == Rows(raw)
  {
    records := [];
    var lines := SplitLines(raw);
    for i := 0 to |lines|
      invariant records == RowsOf(lines[..i])
    {
      var line := lines[i];
      assert Init(lines[..i + 1]) == lines[..i];
      if !("| " <= line) || "| Stage" <= line || "|---" <= line { continue; }
      var parts := Split(RStripBars(LStripBars(line)), '|');
      if |parts| != 4 { continue; }
      records := records + [ApprovalRecord(Strip(parts[0]), Strip(parts[1]), Strip(parts[2]), Strip(parts[3]))];
    }
    assert lines[..|lines|] == lines;
  }

  function Cell(field: string): string {
    " " + field + " "
  }

  function RowLine(r: ApprovalRecord): string {
    "|" + Cell(r.stage) + "|" + Cell(r.runId) + "|" + Cell(r.contentSha256) + "|" + Cell(r.timestamp) + "|"
  }

  /** What a new row is appended to; `header` starts a new file. */
  function Base(header: string, existing: Option<string>): string {
    var text := OldText(header, existing);
    if text != "" && Last(text) != '\n' then text + "\n" else text
  }

  function OldText(header: string, existing: Option<string>): string {
    if existing.Some? then existing.value else header
  }

  /** The content that is written for the text that was read. */
  function Written(header: string, existing: Option<string>, r: ApprovalRecord): string {
    Base(header, existing) + RowLine(r) + "\n"
  }

  predicate PlainField(s: string) {
    Trimmed(s) && '|' !in s && NoBreak(s)
  }

  predicate Plain(r: ApprovalRecord) {
    PlainField(r.stage) && PlainField(r.runId) && PlainField(r.contentSha256) && PlainField(r.timestamp)
  }

  /** The records that survive the trip through the table. */
  predicate WellFormed(r: ApprovalRecord) {
    Plain(r) && !("Stage" <= r.stage)
  }

  /** `record_approval`: the content it writes for the text it read, `None` when the file is missing or cannot
      be read. */
  method RecordApproval(header: string, existing: Option<string>, record: ApprovalRecord) returns (content: string)
    ensures content == Written(header, existing, record)
    ensures Rows(content) == Rows(OldText(header, existing)) + [record] <==> WellFormed(record)
  {
    var base := if existing.Some? then existing.value else header;
    if base != "" && Last(base) != '\n' {
      base := base + "\n";
    }
    content := base + RowLine(record) + "\n";
    AppendedRows(header, existing, record);
  }

  // ---- lines ----

  lemma {:induction false} LinesAfterNewline(line: string, a: string, b: string)
    requires a != "" && Last(a) == '\n'
    ensures LinesFrom(line, a + b) == LinesFrom(line, a) + SplitLines(b)
    decreases |a|
  {
    if IsLineBreak(a[0]) {
      var n := BreakLength(a);
      assert BreakLength(a + b) == n by { if |a| == 1 { assert a[0] == '\n'; } }
      assert (a + b)[n..] == a[n..] + b;
      if a[n..] == "" {
        assert "" + b == b;
      } else {
        LinesAfterNewline("", a[n..], b);
      }
    } else {
      assert (a + b)[1..] == a[1..] + b;
      LinesAfterNewline(line + [a[0]], a[1..], b);
    }
  }

  /** A missing final newline makes no difference, but for one empty line. */
  lemma {:induction false} FinalNewline(line: string, a: string)
    requires line + a != ""
    ensures LinesFrom(line, a + "\n") == LinesFrom(line, a) || LinesFrom(line, a + "\n") == LinesFrom(line, a) + [""]
    decreases |a|
  {
    if a == "" {
      assert a + "\n" == "\n" && line + a == line;
      assert "\n"[1..] == "";
    } else if IsLineBreak(a[0]) {
      var n, n' := BreakLength(a), BreakLength(a + "\n");
      if n != n' {
        assert a == ['\r'] && (a + "\n")[n'..] == "" && a[n..] == "";
      } else {
        assert (a + "\n")[n..] == a[n..] + "\n";
        if a[n..] == "" {
          assert a[n..] + "\n" == "\n" && "\n"[1..] == "";
          assert LinesFrom("", "\n") == [""];
        } else {
          FinalNewline("", a[n..]);
        }
      }
    } else {
      assert (a + "\n")[1..] == a[1..] + "\n";
      FinalNewline(line + [a[0]], a[1..]);
    }
  }

  lemma {:induction false} RowsConcat(a: seq<string>, b: seq<string>)
    ensures RowsOf(a + b) == RowsOf(a) + RowsOf(b)
  {
    if b == [] {
      assert a + b == a;
    } else {
      RowsConcat(a, Init(b));
      assert a + b != [] && Init(a + b) == a + Init(b) && Last(a + b) == Last(b);
    }
  }

  lemma RowsFinalNewline(text: string)
    ensures Rows(text + "\n") == Rows(text)
  {
    assert Init([""]) == [] && RowsOf([""]) == [];
    if text == "" {
      assert text + "\n" == "\n" && "\n"[1..] == "";
      assert SplitLines("\n") == [""];
    } else {
      assert "" + text == text;
      FinalNewline("", text);
      RowsConcat(SplitLines(text), [""]);
    }
  }

  lemma BaseRows(header: string, existing: Option<string>)
    ensures Rows(Base(header, existing)) == Rows(OldText(header, existing))
    ensures Base(header, existing) == "" || Last(Base(header, existing)) == '\n'
  {
    RowsFinalNewline(OldText(header, existing));
  }

  lemma RowsAppend(base: string, more: string)
    requires base == "" || Last(base) == '\n'
    ensures Rows(base + more) == Rows(base) + Rows(more)
  {
    if base == "" {
      assert base + more == more;
    } else {
      LinesAfterNewline("", base, more);
      RowsConcat(SplitLines(base), SplitLines(more));
    }
  }

  lemma AppendedRows(header: string, existing: Option<string>, r: ApprovalRecord)
    ensures Rows(Written(header, existing, r)) == Rows(OldText(header, existing)) + [r] <==> WellFormed(r)
  {
    var base := Base(header, existing);
    BaseRows(header, existing);
    RowsFinalNewline(base + RowLine(r));
    RowsAppend(base, RowLine(r));
    RowRoundTrip(r);
    var old_ := Rows(OldText(header, existing));
    if old_ + Rows(RowLine(r)) == old_ + [r] {
      assert (old_ + Rows(RowLine(r)))[|old_|..] == Rows(RowLine(r));
      assert (old_ + [r])[|old_|..] == [r];
    }
  }

  // ---- one row ----

  lemma {:induction false} BarsWithin(s: string)
    ensures Within(LStripBars(s), s) && Within(RStripBars(s), s)
    decreases |s|
  {
    if s != "" {
      BarsWithin(s[1..]);
      BarsWithin(Init(s));
    }
  }

  lemma {:induction false} PiecesWithin(piece: string, s: string, sep: char)
    ensures forall p, c | p in SplitFrom(piece, s, sep) && c in p :: c in piece || c in s
    decreases |s|
  {
    if s != "" {
      PiecesWithin(if s[0] == sep then "" else piece + [s[0]], s[1..], sep);
    }
  }

  lemma ParsedIsPlain(line: string)
    requires NoBreak(line) && ParseRow(line).Some?
    ensures Plain(ParseRow(line).value)
  {
    BarsWithin(line);
    BarsWithin(LStripBars(line));
    var inner := RStripBars(LStripBars(line));
    PiecesWithin("", inner, '|');
    SplitFromPieces("", inner, '|');
    var parts := Split(inner, '|');
    forall i | 0 <= i < 4
      ensures PlainField(Strip(parts[i]))
    {
      StripWithin(parts[i]);
      forall j | 0 <= j < |Strip(parts[i])|
        ensures !IsLineBreak(Strip(parts[i])[j])
      {
        var c := Strip(parts[i])[j];
        assert c in parts[i] && c in inner && c in line;
      }
    }
  }

  lemma {:induction false} ParsedRowsArePlain(lines: seq<string>, r: ApprovalRecord)
    requires (forall l | l in lines :: NoBreak(l)) && r in RowsOf(lines)
    ensures Plain(r)
  {
    if r in RowsOf(Init(lines)) {
      ParsedRowsArePlain(Init(lines), r);
    } else {
      assert Last(lines) in lines;
      ParsedIsPlain(Last(lines));
    }
  }

  lemma NoBreakConcat(a: string, b: string)
    ensures NoBreak(a + b) <==> NoBreak(a) && NoBreak(b)
  {
    assert forall i | 0 <= i < |a| :: (a + b)[i] == a[i];
    assert forall i | 0 <= i < |b| :: (a + b)[|a| + i] == b[i];
  }

  lemma PlainLine(line: string)
    requires line != "" && NoBreak(line)
    ensures SplitLines(line) == [line]
  {
    LinesFromPlain("", line, "");
    assert line + "" == line && "" + line == line;
  }

  function Inner(r: ApprovalRecord): string {
    Cell(r.stage) + ['|'] + (Cell(r.runId) + ['|'] + (Cell(r.contentSha256) + ['|'] + Cell(r.timestamp)))
  }

  lemma InnerParts(r: ApprovalRecord)
    requires Plain(r)
    ensures Split(Inner(r), '|') == [Cell(r.stage), Cell(r.runId), Cell(r.contentSha256), Cell(r.timestamp)]
  {
    FourPieces(Cell(r.stage), Cell(r.runId), Cell(r.contentSha256), Cell(r.timestamp));
  }

  lemma FourPieces(a: string, b: string, c: string, d: string)
    requires '|' !in a && '|' !in b && '|' !in c && '|' !in d
    ensures Split(a + ['|'] + (b + ['|'] + (c + ['|'] + d)), '|') == [a, b, c, d]
  {
    SplitAtSeparator(a, b + ['|'] + (c + ['|'] + d), '|');
    SplitAtSeparator(b, c + ['|'] + d, '|');
    SplitAtSeparator(c, d, '|');
    SplitPlain(d, '|');
    assert [a] + ([b] + ([c] + [d])) == [a, b, c, d];
  }

  lemma BarsOff(r: ApprovalRecord)
    ensures RStripBars(LStripBars(RowLine(r))) == Inner(r)
  {
    var line := RowLine(r);
    assert line[0] == '|' && line[1] == ' ';
    var rest := line[1..];
    assert LStripBars(line) == LStripBars(rest) == rest;
    assert rest == Inner(r) + "|" && Init(rest) == Inner(r) && Last(rest) == '|';
    assert Last(Inner(r)) == ' ';
  }

  lemma FieldStripped(s: string)
    requires Trimmed(s)
    ensures Strip(Cell(s)) == s
  {
    StripOf(" ", s, " ");
  }

  /** A row gives back its record exactly when the record is well formed. */
  lemma RowRoundTrip(r: ApprovalRecord)
    ensures Rows(RowLine(r)) == [r] <==> WellFormed(r)
  {
    var line := RowLine(r);
    if Rows(line) == [r] {
      LinesHaveNoBreaks("", line);
      assert r in RowsOf(SplitLines(line));
      ParsedRowsArePlain(SplitLines(line), r);
    }
    if Plain(r) {
      PlainRow(r);
    }
  }

  /** The columns of a row are stage, run, hash and time, when it is written and when it is read. */
  lemma ColumnsInOrder(stage: string, run: string, hash: string, time: string)
    requires PlainField(stage) && PlainField(run) && PlainField(hash) && PlainField(time) && !("Stage" <= stage)
    ensures var line := "| " + stage + " | " + run + " | " + hash + " | " + time + " |";
            var record := ApprovalRecord(stage, run, hash, time);
            RowLine(record) == line && Rows(line) == [record]
  {
    var record := ApprovalRecord(stage, run, hash, time);
    var a, b := "| " + stage, "| " + stage + " | " + run;
    OneCell("|", "|", stage);
    OneCell("|" + Cell(stage) + "|", a + " |", run);
    OneCell("|" + Cell(stage) + "|" + Cell(run) + "|", b + " |", hash);
    OneCell("|" + Cell(stage) + "|" + Cell(run) + "|" + Cell(hash) + "|", b + " | " + hash + " |", time);
    assert "|" + " " == "| ";
    Glue(a, run);
    Glue(b, hash);
    Glue(b + " | " + hash, time);
    PlainRow(record);
  }

  lemma OneCell(line: string, text: string, field: string)
    requires line == text
    ensures line + Cell(field) + "|" == text + " " + field + " |"
  {
  }

  lemma Glue(line: string, field: string)
    ensures line + " |" + " " + field + " |" == line + " | " + field + " |"
  {
  }

  lemma PlainRow(r: ApprovalRecord)
    requires Plain(r)
    ensures Rows(RowLine(r)) == if "Stage" <= r.stage then [] else [r]
  {
    var line := RowLine(r);
    RowLineNoBreak(r);
    PlainLine(line);
    assert Init([line]) == [] && RowsOf([]) == [];
    BarsOff(r);
    InnerParts(r);
    FieldStripped(r.stage);
    FieldStripped(r.runId);
    FieldStripped(r.contentSha256);
    FieldStripped(r.timestamp);
    assert line[0] == '|' && line[1] == ' ';
    assert line[..2] == "| ";
    StagePrefix(r);
  }

  lemma RowLineNoBreak(r: ApprovalRecord)
    requires Plain(r)
    ensures NoBreak(RowLine(r))
  {
    var a := "|" + Cell(r.stage) + "|";
    var b := a + Cell(r.runId) + "|";
    var c := b + Cell(r.contentSha256) + "|";
    BarredNoBreak("|", r.stage);
    BarredNoBreak(a, r.runId);
    BarredNoBreak(b, r.contentSha256);
    BarredNoBreak(c, r.timestamp);
  }

  lemma BarredNoBreak(a: string, field: string)
    requires NoBreak(a) && NoBreak(field)
    ensures NoBreak(a + Cell(field) + "|")
  {
    NoBreakConcat(" ", field);
    NoBreakConcat(" " + field, " ");
    NoBreakConcat(a, Cell(field));
    NoBreakConcat(a + Cell(field), "|");
  }

  lemma PrefixBefore(p: string, a: string, b: string)
    requires b != "" && b[0] !in p
    ensures p <= a + b <==> p <= a
  {
    assert (a + b)[|a|] == b[0];
  }

  lemma PrefixAfter(c: string, p: string, t: string)
    ensures c + p <= c + t <==> p <= t
  {
    if c + p <= c + t {
      assert p == (c + p)[|c|..] == (c + t)[|c|..|c| + |p|] == t[..|p|];
    }
  }

  lemma StagePrefix(r: ApprovalRecord)
    ensures "| Stage" <= RowLine(r) <==> "Stage" <= r.stage
  {
    var rest := " |" + Cell(r.runId) + "|" + Cell(r.contentSha256) + "|" + Cell(r.timestamp) + "|";
    assert RowLine(r) == "| " + (r.stage + rest) && "| Stage" == "| " + "Stage";
    PrefixAfter("| ", "Stage", r.stage + rest);
    PrefixBefore("Stage", r.stage, rest);
  }

  // ---- whole histories ----

  function LatestOf(rows: seq<ApprovalRecord>, stage: string): Option<ApprovalRecord> {
    if rows == [] then None
    else if Last(rows).stage == stage then Some(Last(rows))
    else LatestOf(Init(rows), stage)
  }

  /** Row i is the last one of the stage. */
  predicate LastOfStage(rows: seq<ApprovalRecord>, stage: string, i: nat) {
    i < |rows| && rows[i].stage == stage && forall j | i < j < |rows| :: rows[j].stage != stage
  }

  lemma {:induction false} LatestIs(rows: seq<ApprovalRecord>, stage: string)
    ensures LatestOf(rows, stage).None? <==> forall r | r in rows :: r.stage != stage
    ensures LatestOf(rows, stage).Some? ==>
              exists i: nat :: LastOfStage(rows, stage, i) && rows[i] == LatestOf(rows, stage).value
  {
    if rows != [] {
      var front := Init(rows);
      LatestIs(front, stage);
      assert rows == front + [Last(rows)];
      if Last(rows).stage == stage {
        assert LastOfStage(rows, stage, |front|);
      } else if i: nat :| LastOfStage(front, stage, i) && front[i] == LatestOf(front, stage).value {
        assert LastOfStage(rows, stage, i);
      }
    }
  }

  /** `latest_approval`. */
  method LatestApproval(raw: Option<string>, stage: string) returns (latest: Option<ApprovalRecord>)
    ensures latest == if raw.Some? then LatestOf(Rows(raw.value), stage) else None
    ensures latest.None? <==> raw.None? || forall r | r in Rows(raw.value) :: r.stage != stage
    ensures latest.Some? ==>
              exists i: nat :: LastOfStage(Rows(raw.value), stage, i) && Rows(raw.value)[i] == latest.value
  {
    if raw.None? {
      return None;
    }
    var rows := ParseRows(raw.value);
    LatestIs(rows, stage);
    latest := None;
    for i := 0 to |rows|
      invariant latest == LatestOf(rows[..i], stage)
    {
      assert Init(rows[..i + 1]) == rows[..i];
      if rows[i].stage == stage {
        latest := Some(rows[i]);
      }
    }
    assert rows[..|rows|] == rows;
  }

  /** What reading the file gives: its stripped text, unless it is missing or cannot be read. */
  function ReadBack(file: Option<string>, readable: bool): Option<string> {
    if file.Some? && readable then Some(Strip(file.value)) else None
  }

  /** The rows that a successful read finds. */
  function RowsIn(file: Option<string>): seq<ApprovalRecord> {
    match file
    case None => []
    case Some(text) => Rows(Strip(text))
  }

  /** The header of a new file: a title and prose, none of whose lines looks like a data row, then the line
      with the column names, whose first one is "Stage", and the line under them. */
  datatype Header = Header(prose: seq<string>, columns: ApprovalRecord, rule: string) {
    predicate Ok() {
      && prose != [] && prose[0] != "" && !IsSpace(prose[0][0]) && (forall l | l in prose :: NoDataRow(l))
      && Plain(columns) && "Stage" <= columns.stage && NoDataRow(rule)
    }

    function Text(): string {
      Lines(prose) + RowLine(columns) + "\n" + rule + "\n"
    }
  }

  predicate NoDataRow(line: string) {
    NoBreak(line) && !("| " <= line)
  }

  function Lines(lines: seq<string>): string {
    if lines == [] then "" else Lines(Init(lines)) + Last(lines) + "\n"
  }

  lemma NoDataRowHasNoRows(line: string)
    requires NoDataRow(line)
    ensures Rows(line) == []
  {
    if line != "" {
      PlainLine(line);
      assert Init([line]) == [] && RowsOf([]) == [];
    }
  }

  /** One more line at the end of a text that ends with a newline. */
  lemma RowsOneMore(base: string, line: string)
    requires base == "" || Last(base) == '\n'
    ensures Rows(base + line + "\n") == Rows(base) + Rows(line)
  {
    RowsFinalNewline(base + line);
    RowsAppend(base, line);
  }

  lemma {:induction false} ProseHasNoRows(prose: seq<string>)
    requires forall l | l in prose :: NoDataRow(l)
    ensures Rows(Lines(prose)) == [] && (Lines(prose) == "" || Last(Lines(prose)) == '\n')
  {
    if prose != [] {
      ProseHasNoRows(Init(prose));
      NoDataRowHasNoRows(Last(prose));
      RowsOneMore(Lines(Init(prose)), Last(prose));
    }
  }

  /** A new file starts with no rows. */
  lemma HeaderHasNoRows(h: Header)
    requires h.Ok()
    ensures Rows(h.Text()) == [] && h.Text() != "" && !IsSpace(h.Text()[0])
  {
    ProseHasNoRows(h.prose);
    PlainRow(h.columns);
    RowsOneMore(Lines(h.prose), RowLine(h.columns));
    NoDataRowHasNoRows(h.rule);
    RowsOneMore(Lines(h.prose) + RowLine(h.columns) + "\n", h.rule);
    FirstLine(h.prose);
  }

  lemma {:induction false} FirstLine(lines: seq<string>)
    requires lines != [] && lines[0] != ""
    ensures Lines(lines) != "" && Lines(lines)[0] == lines[0][0]
  {
    if |lines| > 1 {
      FirstLine(Init(lines));
    } else {
      assert Lines(Init(lines)) == "" && "" + Last(lines) + "\n" == Last(lines) + "\n";
    }
  }

  /** Stripping a file that ends in a fresh row only takes the final newline off. */
  lemma ReadBackRow(header: string, existing: Option<string>, r: ApprovalRecord)
    requires existing.Some? ==> Trimmed(existing.value)
    requires header != "" && !IsSpace(header[0])
    ensures Rows(Strip(Written(header, existing, r))) == Rows(Written(header, existing, r))
  {
    var m := Base(header, existing) + RowLine(r);
    assert Last(m) == '|';
    assert m[0] == if Base(header, existing) == "" then '|' else OldText(header, existing)[0];
    StripOf("", m, "\n");
    assert "" + m + "\n" == m + "\n";
    RowsFinalNewline(m);
  }

  /** One approval of the file as it is: the rows found afterwards are the old ones and the new one exactly when
      the file could be read or had none. */
  lemma ApprovalKeepsRows(h: Header, file: Option<string>, readable: bool, r: ApprovalRecord)
    requires h.Ok() && WellFormed(r)
    ensures var after := Some(Written(h.Text(), ReadBack(file, readable), r));
            && RowsIn(after) == (if file.Some? && readable then RowsIn(file) + [r] else [r])
            && (RowsIn(after) == RowsIn(file) + [r] <==> readable || RowsIn(file) == [])
  {
    var existing := ReadBack(file, readable);
    HeaderHasNoRows(h);
    if file.Some? {
      var _, _ := StripParts(file.value);
    }
    AppendedRows(h.Text(), existing, r);
    ReadBackRow(h.Text(), existing, r);
    assert [] + [r] == [r];
    if !(file.Some? && readable) && RowsIn(file) != [] {
      assert |RowsIn(file) + [r]| > 1;
    }
  }

  /** A file with one approval that cannot be read at the next one: the old approval is gone. */
  lemma UnreadableFileIsReplaced(h: Header, old_: ApprovalRecord, r: ApprovalRecord)
    requires h.Ok() && WellFormed(old_) && WellFormed(r)
    ensures var file := Some(Written(h.Text(), None, old_));
            && RowsIn(file) == [old_]
            && RowsIn(Some(Written(h.Text(), ReadBack(file, true), r))) == [old_] + [r]
            && RowsIn(Some(Written(h.Text(), ReadBack(file, false), r))) == [r]
  {
    var file := Some(Written(h.Text(), None, old_));
    ApprovalKeepsRows(h, None, true, old_);
    ApprovalKeepsRows(h, file, true, r);
    ApprovalKeepsRows(h, file, false, r);
  }

  datatype Approval = Approval(record: ApprovalRecord, readable: bool)

  /** The stored file after a run of approvals, each of which reads the file first. */
  function Stored(h: Header, file: Option<string>, steps: seq<Approval>): Option<string> {
    if steps == [] then file
    else Some(Written(h.Text(), ReadBack(Stored(h, file, Init(steps)), Last(steps).readable), Last(steps).record))
  }

  /** The approvals since the last one that could not read the file, after the old rows if there is none. */
  function Surviving(old_: seq<ApprovalRecord>, steps: seq<Approval>): seq<ApprovalRecord> {
    if steps == [] then old_
    else (if Last(steps).readable then Surviving(old_, Init(steps)) else []) + [Last(steps).record]
  }

  function Records(steps: seq<Approval>): seq<ApprovalRecord> {
    seq(|steps|, i requires 0 <= i < |steps| => steps[i].record)
  }

  /** After any run of well-formed approvals the table has exactly the surviving ones, in order. */
  lemma {:induction false} HistoryKept(h: Header, file: Option<string>, steps: seq<Approval>)
    requires h.Ok() && forall i | 0 <= i < |steps| :: WellFormed(steps[i].record)
    ensures RowsIn(Stored(h, file, steps)) == Surviving(RowsIn(file), steps)
  {
    if steps != [] {
      HistoryKept(h, file, Init(steps));
      ApprovalKeepsRows(h, Stored(h, file, Init(steps)), Last(steps).readable, Last(steps).record);
    }
  }

  /** With every read successful nothing is lost. */
  lemma {:induction false} AllSurvive(old_: seq<ApprovalRecord>, steps: seq<Approval>)
    requires forall i | 0 <= i < |steps| :: steps[i].readable
    ensures Surviving(old_, steps) == old_ + Records(steps)
  {
    if steps != [] {
      AllSurvive(old_, Init(steps));
      assert Records(steps) == Records(Init(steps)) + [Last(steps).record];
    }
  }

  lemma {:induction false} LatestConcat(a: seq<ApprovalRecord>, b: seq<ApprovalRecord>, stage: string)
    ensures LatestOf(a + b, stage) == if LatestOf(b, stage).Some? then LatestOf(b, stage) else LatestOf(a, stage)
  {
    if b == [] {
      assert a + b == a;
    } else {
      assert Init(a + b) == a + Init(b) && Last(a + b) == Last(b);
      LatestConcat(a, Init(b), stage);
    }
  }

  /** So, with every read successful, the latest approval of any stage is the last one recorded for it, else
      the one the old file had. */
  lemma LatestAfterRun(h: Header, file: Option<string>, steps: seq<Approval>, stage: string)
    requires h.Ok() && forall i | 0 <= i < |steps| :: WellFormed(steps[i].record) && steps[i].readable
    ensures var latest := LatestOf(Records(steps), stage);
            LatestOf(RowsIn(Stored(h, file, steps)), stage) == if latest.Some? then latest else LatestOf(RowsIn(file), stage)
  {
    HistoryKept(h, file, steps);
    AllSurvive(RowsIn(file), steps);
    LatestConcat(RowsIn(file), Records(steps), stage);
  }

  lemma LatestIsLastRecorded(h: Header, file: Option<string>, steps: seq<Approval>, i: nat)
    requires h.Ok() && forall j | 0 <= j < |steps| :: WellFormed(steps[j].record) && steps[j].readable
    requires i < |steps| && forall j | i < j < |steps| :: steps[j].record.stage != steps[i].record.stage
    ensures LatestOf(RowsIn(Stored(h, file, steps)), steps[i].record.stage) == Some(steps[i].record)
  {
    LatestAfterRun(h, file, steps, steps[i].record.stage);
    assert forall j | 0 <= j < |steps| :: Records(steps)[j] == steps[j].record;
    LastOccurrence(Records(steps), i);
  }

  lemma {:induction false} LastOccurrence(records: seq<ApprovalRecord>, i: nat)
    requires i < |records| && forall j | i < j < |records| :: records[j].stage != records[i].stage
    ensures LatestOf(records, records[i].stage) == Some(records[i])
  {
    if i + 1 < |records| {
      assert Init(records)[i] == records[i];
      LastOccurrence(Init(records), i);
    }
  }
}
