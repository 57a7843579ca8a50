/** The text one streaming poll prints: the encoded tail of the output file between two marker lines,
    then the status word.  The sandbox strips the whole of it before the host sees it. */
module PollFraming {
  import opened Text

  const TAIL_MARKER_START := "===TAIL-B64-START==="
  const TAIL_MARKER_END := "===TAIL-B64-END==="

  /** The shell side: two markers around the payload line, the status word last. */
  function Frame(payload: string, status: string): string {
    TAIL_MARKER_START + "\n" + payload + "\n" + TAIL_MARKER_END + "\n" + status + "\n"
  }

  /** `lines.index(x, start)`. */
  function IndexFrom(lines: seq<string>, x: string, start: nat): (r: Option<nat>)
    requires start <= |lines|
    ensures r.None? <==> x !in lines[start..]
    ensures r.Some? ==> start <= r.value < |lines| && lines[r.value] == x && x !in lines[start..r.value]
    decreases |lines| - start
  {
    if start == |lines| then None
    else if lines[start] == x then Some(start)
    else
      var r := IndexFrom(lines, x, start + 1);
      assert lines[start..] == [lines[start]] + lines[start + 1..];
      assert r.Some? ==> lines[start..r.value] == [lines[start]] + lines[start + 1..r.value];
      r
  }

  /** The last line that is not blank, stripped; empty when there is none. */
  function LastNonBlank(lines: seq<string>): string {
    if lines == [] then ""
    else if Strip(Last(lines)) != "" then Strip(Last(lines))
    else LastNonBlank(Init(lines))
  }

  /** `_split_tail_poll_output`. */
  function SplitTailPollOutput(stdoutText: string): (string, string) {
    var lines := Split(stdoutText, '\n');
    match IndexFrom(lines, TAIL_MARKER_START, 0)
    case None => ("", LastNonBlank(lines))
    case Some(start) =>
      match IndexFrom(lines, TAIL_MARKER_END, start + 1)
      case None => ("", LastNonBlank(lines))
      case Some(end) => (Join(lines[start + 1..end], ""), LastNonBlank(lines[end + 1..]))
  }

  /** A status word as the shell echoes it: one non-empty line without outer white space. */
  predicate StatusWord(status: string) {
    status != "" && Trimmed(status) && '\n' !in status
  }

  lemma JoinFour(a: string, b: string, c: string, d: string)
    ensures Join([a, b, c, d], "\n") == a + "\n" + b + "\n" + c + "\n" + d
  {
    assert [a, b, c, d][1..] == [b, c, d] && [b, c, d][1..] == [c, d] && [c, d][1..] == [d];
    assert Join([c, d], "\n") == c + "\n" + d;
    assert Join([b, c, d], "\n") == b + "\n" + (c + "\n" + d);
    assert Join([a, b, c, d], "\n") == a + "\n" + (b + "\n" + (c + "\n" + d));
  }

  lemma StripFrame(payload: string, status: string)
    requires StatusWord(status)
    ensures Strip(Frame(payload, status)) == Join([TAIL_MARKER_START, payload, TAIL_MARKER_END, status], "\n")
  {
    var m := Join([TAIL_MARKER_START, payload, TAIL_MARKER_END, status], "\n");
    JoinFour(TAIL_MARKER_START, payload, TAIL_MARKER_END, status);
    assert m[0] == '=' && Last(m) == Last(status);
    assert Frame(payload, status) == "" + m + "\n";
    StripOf("", m, "\n");
  }

  /** The framing round trip, whatever else the payload contains (DONE and DEAD included); the end
      marker itself is the one payload line that is lost. */
  lemma FramedRoundTrip(payload: string, status: string)
    requires StatusWord(status) && '\n' !in payload
    ensures SplitTailPollOutput(Strip(Frame(payload, status))) == (payload, status)
       <==> payload != TAIL_MARKER_END
  {
    StripFrame(payload, status);
    var pieces := [TAIL_MARKER_START, payload, TAIL_MARKER_END, status];
    assert forall i | 0 <= i < |pieces| :: '\n' !in pieces[i];
    JoinSplit(pieces, '\n');
    StripTrimmed(status);
    MarkerIndices(pieces, payload);
    if payload != TAIL_MARKER_END {
      assert pieces[1..2] == [payload] && pieces[3..] == [status];
    }
  }

  lemma MarkerIndices(pieces: seq<string>, payload: string)
    requires |pieces| == 4 && pieces[..3] == [TAIL_MARKER_START, payload, TAIL_MARKER_END]
    ensures IndexFrom(pieces, TAIL_MARKER_START, 0) == Some(0)
    ensures IndexFrom(pieces, TAIL_MARKER_END, 1) == Some(if payload == TAIL_MARKER_END then 1 else 2)
  {
    assert pieces[0] == pieces[..3][0] && pieces[1] == pieces[..3][1] && pieces[2] == pieces[..3][2];
  }

  /** Without an end marker after a start marker the whole text is status: no payload, the last non-blank line. */
  lemma UnframedFallback(text: string)
    requires forall i, j | 0 <= i < j < |Split(Strip(text), '\n')| ::
               Split(Strip(text), '\n')[i] == TAIL_MARKER_START ==> Split(Strip(text), '\n')[j] != TAIL_MARKER_END
    ensures SplitTailPollOutput(Strip(text)).0 == ""
    ensures SplitTailPollOutput(Strip(text)).1 == LastNonBlank(Split(text, '\n'))
  {
    LastNonBlankOfStrip(text);
  }

  lemma {:induction false} LastNonBlankTail(lines: seq<string>, blank: seq<string>)
    requires forall l | l in blank :: Blank(l)
    ensures LastNonBlank(lines + blank) == LastNonBlank(lines)
  {
    if blank == [] {
      assert lines + blank == lines;
    } else {
      assert Init(lines + blank) == lines + Init(blank);
      StripEmpty(Last(blank));
      LastNonBlankTail(lines, Init(blank));
    }
  }

  lemma {:induction false} BlankPieces(piece: string, b: string)
    requires Blank(piece) && Blank(b)
    ensures forall l | l in SplitFrom(piece, b, '\n') :: Blank(l)
    decreases |b|
  {
    if b != "" {
      BlankPieces(if b[0] == '\n' then "" else piece + [b[0]], b[1..]);
    }
  }

  /** Stripping a text does not change its last non-blank line. */
  lemma LastNonBlankOfStrip(text: string)
    ensures LastNonBlank(Split(Strip(text), '\n')) == LastNonBlank(Split(text, '\n'))
  {
    var a, b := StripParts(text);
    var m := Strip(text);
    var rest := m + b;
    Associative(a, m, b);
    LeadingSpace(a, rest);
    TrailingSpace(m, b);
  }

  lemma LeadingSpace(a: string, t: string)
    requires Blank(a)
    ensures LastNonBlank(Split(a + t, '\n')) == LastNonBlank(Split(t, '\n'))
  {
    SplitConcat(a, t, '\n');
    BlankPieces("", a);
    var open := Last(Split(a, '\n'));
    SplitFromPieces("", a, '\n');
    SplitOpen(open, t);
    var lines, before := Split(t, '\n'), Init(Split(a, '\n'));
    LastNonBlankPrefix(before, open, lines);
  }

  lemma SplitOpen(open: string, t: string)
    requires '\n' !in open
    ensures Split(open + t, '\n') == [open + Split(t, '\n')[0]] + Split(t, '\n')[1..]
  {
    SplitFromPlain("", open, t, '\n');
    assert "" + open == open;
    SplitFirstPiece(open, t, '\n');
  }

  lemma {:induction false} LastNonBlankPrefix(before: seq<string>, open: string, lines: seq<string>)
    requires Blank(open) && (forall l | l in before :: Blank(l)) && lines != []
    ensures LastNonBlank(before + ([open + lines[0]] + lines[1..])) == LastNonBlank(lines)
    decreases |lines|
  {
    StripIgnoresBlank(open, lines[0], "");
    assert open + lines[0] + "" == open + lines[0];
    var whole := before + ([open + lines[0]] + lines[1..]);
    if |lines| > 1 {
      assert Last(whole) == Last(lines);
      assert Init(whole) == before + ([open + Init(lines)[0]] + Init(lines)[1..]);
      LastNonBlankPrefix(before, open, Init(lines));
    } else {
      assert Init(whole) == before && Last(whole) == open + lines[0];
      LastNonBlankTail([], before);
      assert [] + before == before;
      assert Init(lines) == [];
    }
  }

  lemma TrailingSpace(m: string, b: string)
    requires Blank(b)
    ensures LastNonBlank(Split(m + b, '\n')) == LastNonBlank(Split(m, '\n'))
  {
    var lines := Split(m, '\n');
    var open := Last(lines);
    SplitConcat(m, b, '\n');
    SplitFromPieces("", m, '\n');
    SplitOpen(open, b);
    BlankPieces("", b);
    var tail := Split(b, '\n');
    assert Split(m + b, '\n') == (Init(lines) + [open + tail[0]]) + tail[1..];
    LastNonBlankTail(Init(lines) + [open + tail[0]], tail[1..]);
    StripIgnoresBlank("", open, tail[0]);
    assert "" + open + tail[0] == open + tail[0];
    assert Init(Init(lines) + [open + tail[0]]) == Init(lines);
  }
}
