/** The live narration of a running CLI turn: complete JSONL lines are classified as they arrive and
    their events are handed on one line late, so that the turn's terminal line is never narrated. */
module Narration {
  import opened Text
  import opened Jsonl

  type Byte = n: int | 0 <= n < 256

  /** UTF-8 decoding with replacement, one tail read at a time. */
  type Decode = seq<Byte> -> string

  /** The text of one tail read. */
  function Heard(decode: Decode, bytes: seq<Byte>): string {
    if bytes == [] then "" else decode(bytes)
  }

  /** The text of several reads, each decoded on its own. */
  function Decoded(decode: Decode, reads_: seq<seq<Byte>>): string {
    if reads_ == [] then "" else Decoded(decode, Init(reads_)) + Heard(decode, Last(reads_))
  }

  /** The provider's `classify_line`; `None` when it raises. */
  type Classify<!E, R> = E -> Option<seq<R>>

  /** A line's narration; a classifier that raises only loses that line's events. */
  function Narrate<E, R>(classify: Classify<E, R>, line: E): seq<R> {
    match classify(line)
    case None => []
    case Some(events) => events
  }

  function NarrateAll<E, R>(classify: Classify<E, R>, lines: seq<E>): seq<R> {
    if lines == [] then []
    else NarrateAll(classify, Init(lines)) + Narrate(classify, Last(lines))
  }

  lemma {:induction false} NarrateConcat<E, R>(classify: Classify<E, R>, a: seq<E>, b: seq<E>)
    ensures NarrateAll(classify, a + b) == NarrateAll(classify, a) + NarrateAll(classify, b)
  {
    if b == [] {
      assert a + b == a;
    } else {
      NarrateConcat(classify, a, Init(b));
      assert a + b != [] && Init(a + b) == a + Init(b) && Last(a + b) == Last(b);
      var last := Narrate(classify, Last(b));
      assert NarrateAll(classify, a + b) == NarrateAll(classify, a + Init(b)) + last;
      assert NarrateAll(classify, b) == NarrateAll(classify, Init(b)) + last;
    }
  }

  /** Everything before the most recent line. */
  function AllButLast<T>(s: seq<T>): seq<T> {
    if s == [] then [] else Init(s)
  }

  /** `_NarrationStreamer`.  `emitted` is what has reached the event store and the live stream. */
  class NarrationStreamer<E, R> {
    const loads: Loads<E>
    const decode: Decode
    const classify: Classify<E, R>
    var byteOffset: nat
    var streamedLineCount: nat
    var lineBuffer: string
    var pending: seq<R>
    var emitted: seq<R>
    ghost var consumed: seq<Byte>
    ghost var text: string

    ghost function Seen(): seq<E>
      reads this
    {
      StreamEvents(loads, text)
    }

    /** Every accepted line has been narrated exactly once, in order; at most one line is held back. */
    ghost predicate Valid()
      reads this
    {
      && byteOffset == |consumed|
      && lineBuffer == OpenLine(text)
      && streamedLineCount == |Seen()|
      && emitted + pending == NarrateAll(classify, Seen())
    }

    /** The hand-over contract: the most recent accepted line, and only it, is still held back. */
    ghost predicate Lagging()
      reads this
    {
      emitted == NarrateAll(classify, AllButLast(Seen()))
    }

    constructor (loads: Loads<E>, decode: Decode, classify: Classify<E, R>)
      ensures Valid() && Lagging() && consumed == [] && text == "" && emitted == []
      ensures this.loads == loads && this.decode == decode && this.classify == classify
    {
      this.loads, this.decode, this.classify := loads, decode, classify;
      byteOffset, streamedLineCount, lineBuffer, pending, emitted := 0, 0, "", [], [];
      consumed, text := [], "";
    }

    method FlushPending()
      modifies `pending, `emitted
      ensures emitted == old(emitted) + old(pending) && pending == []
    {
      if pending == [] {
        assert emitted == emitted + pending;
        return;
      }
      emitted := emitted + pending;
      pending := [];
    }

    /** One accepted line: it releases the line held back before it and is held back itself. */
    method AcceptLine(line: E, ghost seen: seq<E>)
      requires emitted + pending == NarrateAll(classify, seen)
      modifies `pending, `emitted, `streamedLineCount
      ensures streamedLineCount == old(streamedLineCount) + 1
      ensures emitted == NarrateAll(classify, seen) && old(emitted) <= emitted
      ensures emitted + pending == NarrateAll(classify, seen + [line])
    {
      streamedLineCount := streamedLineCount + 1;
      FlushPending();
      pending := Narrate(classify, line);
      assert Init(seen + [line]) == seen;
    }

    /** Feeds complete lines to the JSON parser; the narration runs one accepted line behind. */
    method ConsumeLines(lines: seq<string>, ghost before: seq<E>)
      requires streamedLineCount == |before| && emitted + pending == NarrateAll(classify, before)
      modifies `pending, `emitted, `streamedLineCount
      ensures var seen := before + Accepted(loads, lines);
              && streamedLineCount == |seen| && emitted + pending == NarrateAll(classify, seen)
              && old(emitted) <= emitted
              && if seen == before then emitted == old(emitted) && pending == old(pending)
                 else emitted == NarrateAll(classify, AllButLast(seen))
    {
      ghost var seen := before;
      for i := 0 to |lines|
        invariant seen == before + Accepted(loads, lines[..i])
        invariant streamedLineCount == |seen| && emitted + pending == NarrateAll(classify, seen)
        invariant old(emitted) <= emitted
        invariant if seen == before then emitted == old(emitted) && pending == old(pending)
                  else emitted == NarrateAll(classify, AllButLast(seen))
      {
        var parsed := ParseLine(loads, lines[i]);
        AcceptedNext(loads, lines, i);
        if parsed.None? {
          continue;
        }
        AcceptLine(parsed.value, seen);
        assert AllButLast(seen + [parsed.value]) == seen;
        seen := seen + [parsed.value];
        assert |seen| > |before|;
      }
      assert lines[..|lines|] == lines;
    }

    /** `consume_tail`: whatever way the output is cut into reads, the lines handed to the JSON parser
        are the newline-terminated ones, and the unterminated rest is kept for the next read. */
    method ConsumeTail(newBytes: seq<Byte>)
      requires Valid()
      modifies this
      ensures Valid()
      ensures consumed == old(consumed) + newBytes
      ensures text == old(text) + Heard(decode, newBytes)
      ensures old(Seen()) <= Seen() && old(emitted) <= emitted
      ensures old(Lagging()) || Seen() != old(Seen()) ==> Lagging()
      ensures Seen() == old(Seen()) ==> emitted == old(emitted) && pending == old(pending)
    {
      if newBytes == [] {
        return;
      }
      var chunk := decode(newBytes);
      byteOffset := byteOffset + |newBytes|;
      var lines := Split(lineBuffer + chunk, '\n');
      SeenAfter(loads, text, chunk);
      lineBuffer := Last(lines);
      ConsumeLines(Init(lines), Seen());
      consumed, text := consumed + newBytes, text + chunk;
    }
  }

  lemma SeenAfter<E>(loads: Loads<E>, text: string, chunk: string)
    ensures var lines := Split(OpenLine(text) + chunk, '\n');
            && StreamEvents(loads, text + chunk) == StreamEvents(loads, text) + Accepted(loads, Init(lines))
            && OpenLine(text + chunk) == Last(lines)
  {
    SplitConcat(text, chunk, '\n');
    var lines := Split(OpenLine(text) + chunk, '\n');
    assert CompleteLines(text + chunk) == CompleteLines(text) + Init(lines);
    AcceptedConcat(loads, CompleteLines(text), Init(lines));
  }

  function Flat<T>(parts: seq<seq<T>>): seq<T> {
    if parts == [] then [] else Flat(Init(parts)) + Last(parts)
  }

  /** `encode` is the encoding that `decode` undoes: character by character, with no code the start of another. */
  ghost predicate Encodes(encode: string -> seq<Byte>, decode: Decode) {
    && (forall a, b :: encode(a + b) == encode(a) + encode(b))
    && (forall s :: decode(encode(s)) == s)
    && (forall a, b :: encode(a) <= encode(b) ==> a <= b)
  }

  ghost predicate IsText(encode: string -> seq<Byte>, bytes: seq<Byte>) {
    exists s :: encode(s) == bytes
  }

  /** The reads cut the file `out` between characters. */
  ghost predicate WholeCharacters(decode: Decode, reads_: seq<seq<Byte>>, out: seq<Byte>) {
    exists encode: string -> seq<Byte> ::
      Encodes(encode, decode) && IsText(encode, out) && forall r | r in reads_ :: IsText(encode, r)
  }

  /** Then the texts of the reads add up to the text of the bytes read, which the text of the file starts with. */
  lemma WholeCharacterReads(decode: Decode, reads_: seq<seq<Byte>>, out: seq<Byte>)
    requires WholeCharacters(decode, reads_, out) && Flat(reads_) <= out
    ensures Decoded(decode, reads_) == decode(Flat(reads_)) && Decoded(decode, reads_) <= decode(out)
  {
    var encode: string -> seq<Byte> :|
      Encodes(encode, decode) && IsText(encode, out) && forall r | r in reads_ :: IsText(encode, r);
    EncodedReads(encode, decode, reads_);
    var whole :| encode(whole) == out;
  }

  lemma EncodesNothing(encode: string -> seq<Byte>, decode: Decode)
    requires Encodes(encode, decode)
    ensures encode("") == []
  {
    assert encode("" + "") == encode("") + encode("");
    assert "" + "" == "";
  }

  lemma {:induction false} EncodedReads(encode: string -> seq<Byte>, decode: Decode, reads_: seq<seq<Byte>>)
    requires Encodes(encode, decode) && forall r | r in reads_ :: IsText(encode, r)
    ensures encode(Decoded(decode, reads_)) == Flat(reads_)
  {
    EncodesNothing(encode, decode);
    if reads_ != [] {
      EncodedReads(encode, decode, Init(reads_));
      var r := Last(reads_);
      assert r in reads_;
      var s :| encode(s) == r;
      assert Heard(decode, r) == s by { assert r == [] ==> encode(s) <= encode(""); }
    }
  }
}
