/** Whether the hand-over can deliver a line more often than the batch lists it: exactly which outputs rule that
    out for every parser, and an output that does not. */
module Repeats {
  import opened Text
  import opened Jsonl
  import opened Narration
  import opened HandOver

  /** A parser that accepts some lines, as they are, and a classifier that narrates a line as itself. */
  function Only(accept: string -> bool): Loads<string> {
    line => if accept(line) then Some(line) else None
  }

  function Itself(): Classify<string, string> {
    line => Some([line])
  }

  lemma {:induction false} NarrateItself(lines: seq<string>)
    ensures NarrateAll(Itself(), lines) == lines
  {
    if lines != [] {
      NarrateItself(Init(lines));
      assert Narrate(Itself(), Last(lines)) == [Last(lines)];
      assert lines == Init(lines) + [Last(lines)];
    }
  }

  /** What is delivered, no line more often than the batch lists it. */
  ghost predicate WithinBatch(accept: string -> bool, text: string, unread: string) {
    var events := BatchEvents(Only(accept), text + unread);
    multiset(Delivered(Only(accept), Itself(), text, events)) <= multiset(events)
  }

  /** Exactly when no parser at all can have a line delivered more often than the batch lists it. */
  lemma NeverMoreThanBatch(text: string, unread: string)
    ensures (forall accept: string -> bool :: WithinBatch(accept, text, unread)) <==> CleanBefore(text)
  {
    if CleanBefore(text) {
      forall accept: string -> bool
        ensures WithinBatch(accept, text, unread)
      {
        CleanIsWithin(accept, text, unread);
      }
    } else {
      var u :| u in AllButLast(Kept(CompleteLines(text))) && !NoBreak(u);
      UncleanIsNot(text, unread, u);
    }
  }

  lemma SliceWithin<T>(events: seq<T>, live: seq<T>, k: nat)
    requires live <= events && |live| <= k
    ensures multiset(live + BatchSlice(events, k)) <= multiset(events)
  {
    if k < |events| {
      var between, slice := events[|live|..k], BatchSlice(events, k);
      assert events == live + between + slice + [Last(events)];
    } else {
      assert events == live + events[|live|..];
      assert live + [] == live;
    }
  }

  lemma CleanIsWithin(accept: string -> bool, text: string, unread: string)
    requires CleanBefore(text)
    ensures WithinBatch(accept, text, unread)
  {
    var loads := Only(accept);
    var events, seen := BatchEvents(loads, text + unread), StreamEvents(loads, text);
    BatchByLine(loads, text, unread);
    LivePrefix(loads, CompleteLines(text));
    NarrateItself(AllButLast(seen));
    NarrateItself(BatchSlice(events, |seen|));
    SliceWithin(events, AllButLast(seen), |seen|);
  }

  lemma {:induction false} AcceptedMembers(accept: string -> bool, lines: seq<string>, line: string)
    ensures line in Accepted(Only(accept), lines) <==> line in Kept(lines) && accept(line)
  {
    if lines != [] {
      AcceptedMembers(accept, lines[1..], line);
    }
  }

  lemma BatchLinesAreClean(text: string)
    ensures forall line | line in Kept(SplitLines(text)) :: NoBreak(line)
  {
    LinesHaveNoBreaks("", text);
    KeptElements(SplitLines(text));
    forall line | line in Kept(SplitLines(text))
      ensures NoBreak(line)
    {
      var whole :| whole in SplitLines(text) && line == Strip(whole);
      StripWithin(whole);
      assert forall i | 0 <= i < |line| :: line[i] in whole;
    }
  }

  predicate OneOf(u: string, v: string, line: string) {
    line == u || line == v
  }

  /** A line that the batch cuts up, and a line after it: accept only these two. */
  lemma UncleanIsNot(text: string, unread: string, u: string)
    requires u in AllButLast(Kept(CompleteLines(text))) && !NoBreak(u)
    ensures exists accept: string -> bool :: !WithinBatch(accept, text, unread)
  {
    var v := Last(Kept(CompleteLines(text)));
    var accept := (line: string) => OneOf(u, v, line);
    DeliversUnlisted(accept, text, unread, u);
    assert !WithinBatch(accept, text, unread);
  }

  lemma DeliversUnlisted(accept: string -> bool, text: string, unread: string, u: string)
    requires u in AllButLast(Kept(CompleteLines(text))) && !NoBreak(u)
    requires accept(u) && accept(Last(Kept(CompleteLines(text))))
    ensures !WithinBatch(accept, text, unread)
  {
    var events, seen := BatchEvents(Only(accept), text + unread), StreamEvents(Only(accept), text);
    AcceptedMembers(accept, SplitLines(text + unread), u);
    BatchLinesAreClean(text + unread);
    AcceptedOfKept(accept, CompleteLines(text));
    NarrateItself(AllButLast(seen));
    MoreOften(AllButLast(seen), NarrateAll(Itself(), BatchSlice(events, |seen|)), events, u);
  }

  lemma MoreOften<T>(a: seq<T>, b: seq<T>, events: seq<T>, x: T)
    requires x in a && x !in events
    ensures !(multiset(a + b) <= multiset(events))
  {
    assert x in a + b;
    assert multiset(events)[x] == 0 && multiset(a + b)[x] > 0;
  }

  /** Of lines whose last kept one is accepted, the others that are accepted come before it. */
  lemma {:induction false} AcceptedOfKept(accept: string -> bool, lines: seq<string>)
    requires Kept(lines) != [] && accept(Last(Kept(lines)))
    ensures Accepted(Only(accept), lines) != []
    ensures forall line | line in AllButLast(Kept(lines)) && accept(line) :: line in AllButLast(Accepted(Only(accept), lines))
  {
    if Strip(lines[0]) == "" {
      AcceptedOfKept(accept, lines[1..]);
    } else if Kept(lines[1..]) != [] {
      AcceptedOfKept(accept, lines[1..]);
      var first, rest := Strip(lines[0]), lines[1..];
      assert Kept(lines) == [first] + Kept(rest) && Last(Kept(lines)) == Last(Kept(rest));
      assert AllButLast(Kept(lines)) == [first] + AllButLast(Kept(rest));
      var more := Accepted(Only(accept), rest);
      if accept(first) {
        assert Accepted(Only(accept), lines) == [first] + more;
        assert AllButLast([first] + more) == [first] + AllButLast(more);
      }
    }
  }

  /** A line can be delivered twice: the batch makes two lines of the first one, so its list is one longer,
      and the slice starts again at a line that was streamed. */
  lemma LineTwiceExample(a: char, b: char, c: char, d: char, br: char)
    requires Letter(a) && Letter(b) && Letter(c) && Letter(d)
    requires IsLineBreak(br) && br != '\n' && br != '\r'
    ensures var loads, text := Only(Single), [a, br, b] + ['\n'] + ([c] + ['\n'] + ([d] + ['\n']));
            && StreamEvents(loads, text) == [[c], [d]] && BatchEvents(loads, text) == [[a], [b], [c], [d]]
            && Delivered(loads, Itself(), text, BatchEvents(loads, text)) == [[c], [c]]
  {
    var text := [a, br, b] + ['\n'] + ([c] + ['\n'] + ([d] + ['\n']));
    ThreeLines([a, br, b], [c], [d]);
    StreamedLines([a, br, b], c, d);
    BatchedLines(text, a, b, c, d, br);
    assert Init([[c], [d]]) == [[c]] && BatchSlice([[a], [b], [c], [d]], 2) == [[c]];
    NarrateItself([[c]]);
  }

  lemma SingleAccepted(line: string)
    requires line != "" && Trimmed(line)
    ensures Accepted(Only(Single), [line]) == if Single(line) then [line] else []
  {
    StripTrimmed(line);
    assert [line][1..] == [];
  }

  lemma StreamedLines(broken: string, c: char, d: char)
    requires Letter(c) && Letter(d) && |broken| > 1 && Trimmed(broken)
    ensures Accepted(Only(Single), [broken, [c], [d]]) == [[c], [d]]
  {
    SingleAccepted(broken);
    SingleAccepted([c]);
    SingleAccepted([d]);
    ThreeAccepted(Only(Single), broken, [c], [d]);
  }

  lemma BatchedLines(text: string, a: char, b: char, c: char, d: char, br: char)
    requires Letter(a) && Letter(b) && Letter(c) && Letter(d) && IsLineBreak(br) && br != '\r'
    requires CompleteLines(text) == [[a, br, b], [c], [d]] && OpenLine(text) == ""
    ensures BatchEvents(Only(Single), text) == [[a], [b], [c], [d]]
  {
    BatchByLine(Only(Single), text, "");
    assert text + "" == text && "" + "" == "";
    BrokenLines(a, b, c, d, br);
    FourSingles(a, b, c, d);
  }

  lemma BrokenLines(a: char, b: char, c: char, d: char, br: char)
    requires Letter(a) && Letter(b) && Letter(c) && Letter(d) && IsLineBreak(br) && br != '\r'
    ensures LinesOf([[a, br, b], [c], [d]]) == [[a], [b], [c], [d]]
  {
    TwoInOne(a, b, br);
    SplitOneLetter(c);
    SplitOneLetter(d);
    ThreeLinesOf([a, br, b], [c], [d]);
    assert [[a], [b]] + [[c]] + [[d]] == [[a], [b], [c], [d]];
  }

  lemma FourSingles(a: char, b: char, c: char, d: char)
    requires Letter(a) && Letter(b) && Letter(c) && Letter(d)
    ensures Accepted(Only(Single), [[a], [b], [c], [d]]) == [[a], [b], [c], [d]]
  {
    SingleAccepted([a]);
    SingleAccepted([b]);
    SingleAccepted([c]);
    SingleAccepted([d]);
    FourAccepted(Only(Single), [a], [b], [c], [d]);
  }

  predicate Single(line: string) {
    |line| == 1
  }

  predicate Letter(c: char) {
    !IsSpace(c) && !IsLineBreak(c)
  }

  lemma ThreeLines(x: string, y: string, z: string)
    requires '\n' !in x && '\n' !in y && '\n' !in z
    ensures var text := x + ['\n'] + (y + ['\n'] + (z + ['\n']));
            CompleteLines(text) == [x, y, z] && OpenLine(text) == ""
  {
    SplitAtSeparator(x, y + ['\n'] + (z + ['\n']), '\n');
    SplitAtSeparator(y, z + ['\n'], '\n');
    SplitAtSeparator(z, "", '\n');
    SplitPlain("", '\n');
    assert z + ['\n'] + "" == z + ['\n'];
    assert [x] + ([y] + ([z] + [""])) == [x, y, z, ""];
    assert Init([x, y, z, ""]) == [x, y, z];
  }

  lemma ThreeAccepted(loads: Loads<string>, x: string, y: string, z: string)
    ensures Accepted(loads, [x, y, z]) == Accepted(loads, [x]) + Accepted(loads, [y]) + Accepted(loads, [z])
  {
    assert [x, y, z] == [x] + [y] + [z];
    AcceptedConcat(loads, [x] + [y], [z]);
    AcceptedConcat(loads, [x], [y]);
  }

  lemma FourAccepted(loads: Loads<string>, w: string, x: string, y: string, z: string)
    ensures Accepted(loads, [w, x, y, z])
         == Accepted(loads, [w]) + Accepted(loads, [x]) + Accepted(loads, [y]) + Accepted(loads, [z])
  {
    assert [w, x, y, z] == [w] + [x, y, z];
    AcceptedConcat(loads, [w], [x, y, z]);
    ThreeAccepted(loads, x, y, z);
  }

  lemma ThreeLinesOf(x: string, y: string, z: string)
    ensures LinesOf([x, y, z]) == SplitLines(x) + SplitLines(y) + SplitLines(z)
  {
    assert [x, y, z][1..] == [y, z] && [y, z][1..] == [z] && [z][1..] == [];
    assert LinesOf([z]) == SplitLines(z);
  }

  lemma SplitOneLetter(c: char)
    requires !IsLineBreak(c)
    ensures SplitLines([c]) == [[c]]
  {
    LinesFromPlain("", [c], "");
    assert [c] + "" == [c] && "" + [c] == [c];
  }

  lemma TwoInOne(a: char, b: char, br: char)
    requires !IsLineBreak(a) && !IsLineBreak(b) && IsLineBreak(br) && br != '\r'
    ensures SplitLines([a, br, b]) == [[a], [b]]
  {
    SplitOneLetter(b);
    LinesFromPlain("", [a], [br, b]);
    assert [a] + [br, b] == [a, br, b] && "" + [a] == [a];
    assert [br, b][1..] == [b] && BreakLength([br, b]) == 1;
  }
}
