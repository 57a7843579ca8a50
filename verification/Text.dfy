/** Python's text operations, as far as this agent relies on them: `str.strip`, `str.split(sep)`,
    `str.splitlines` and `sep.join`.  A text is a sequence of Unicode characters. */
module Text {

  datatype Option<+T> = None | Some(value: T)

  /** The characters `str.strip()` removes. */
  predicate IsSpace(c: char) {
    var n := c as int;
    || 0x09 <= n <= 0x0d || 0x1c <= n <= 0x20 || n == 0x85 || n == 0xa0 || n == 0x1680
    || 0x2000 <= n <= 0x200a || n == 0x2028 || n == 0x2029 || n == 0x202f || n == 0x205f || n == 0x3000
  }

  /** The characters `str.splitlines()` breaks at ("\r\n" counts as one break). */
  predicate IsLineBreak(c: char) {
    var n := c as int;
    0x0a <= n <= 0x0d || 0x1c <= n <= 0x1e || n == 0x85 || n == 0x2028 || n == 0x2029
  }

  predicate Blank(s: string) {
    forall i | 0 <= i < |s| :: IsSpace(s[i])
  }

  predicate NoBreak(s: string) {
    forall i | 0 <= i < |s| :: !IsLineBreak(s[i])
  }

  /** No white space at either end, so stripping changes nothing. */
  predicate Trimmed(s: string) {
    s != "" ==> !IsSpace(s[0]) && !IsSpace(s[|s| - 1])
  }

  function LStrip(s: string): string {
    if s != "" && IsSpace(s[0]) then LStrip(s[1..]) else s
  }

  function RStrip(s: string): string {
    if s != "" && IsSpace(s[|s| - 1]) then RStrip(s[..|s| - 1]) else s
  }

  function Strip(s: string): string {
    RStrip(LStrip(s))
  }

  /** The pieces of `piece + s`, where `piece` is the part of the current piece already scanned. */
  function SplitFrom(piece: string, s: string, sep: char): (pieces: seq<string>)
    ensures |pieces| >= 1
    decreases |s|
  {
    if s == "" then [piece]
    else if s[0] == sep then [piece] + SplitFrom("", s[1..], sep)
    else SplitFrom(piece + [s[0]], s[1..], sep)
  }

  /** `s.split(sep)` for a one-character separator: never empty, one piece more than separators. */
  function Split(s: string, sep: char): (pieces: seq<string>)
    ensures |pieces| >= 1
  {
    SplitFrom("", s, sep)
  }

  /** `sep.join(pieces)`. */
  function Join(pieces: seq<string>, sep: string): string {
    if pieces == [] then ""
    else if |pieces| == 1 then pieces[0]
    else pieces[0] + sep + Join(pieces[1..], sep)
  }

  function BreakLength(s: string): (n: nat)
    requires s != ""
    ensures 1 <= n <= |s|
  {
    if |s| >= 2 && s[0] == '\r' && s[1] == '\n' then 2 else 1
  }

  /** The lines of `line + s`, where `line` is the part of the current line already scanned. */
  function LinesFrom(line: string, s: string): seq<string>
    decreases |s|
  {
    if s == "" then (if line == "" then [] else [line])
    else if IsLineBreak(s[0]) then [line] + LinesFrom("", s[BreakLength(s)..])
    else LinesFrom(line + [s[0]], s[1..])
  }

  /** `s.splitlines()`. */
  function SplitLines(s: string): seq<string> {
    LinesFrom("", s)
  }

  function LowerChar(c: char): char {
    if 'A' <= c <= 'Z' then c - 'A' + 'a' else c
  }

  /** `str.lower()` on the ASCII letters. */
  function Lower(s: string): string {
    seq(|s|, i requires 0 <= i < |s| => LowerChar(s[i]))
  }

  predicate OccursAt(text: string, word: string, i: nat) {
    i + |word| <= |text| && text[i..i + |word|] == word
  }

  /** `word in text`. */
  predicate Contains(text: string, word: string) {
    exists i | 0 <= i <= |text| :: OccursAt(text, word, i)
  }

  predicate NoDuplicates<T(==)>(xs: seq<T>) {
    forall i, j | 0 <= i < j < |xs| :: xs[i] != xs[j]
  }

  function Init<T>(s: seq<T>): seq<T>
    requires s != []
  {
    s[..|s| - 1]
  }

  function Last<T>(s: seq<T>): T
    requires s != []
  {
    s[|s| - 1]
  }

  lemma Associative<T>(x: seq<T>, y: seq<T>, z: seq<T>)
    ensures x + (y + z) == (x + y) + z
  {
  }

  // ---- strip ----

  lemma {:induction false} LStripBlank(a: string, t: string)
    requires Blank(a)
    ensures LStrip(a + t) == LStrip(t)
  {
    if a == "" {
      assert a + t == t;
    } else {
      assert (a + t)[1..] == a[1..] + t;
      LStripBlank(a[1..], t);
    }
  }

  lemma {:induction false} RStripBlank(t: string, b: string)
    requires Blank(b)
    ensures RStrip(t + b) == RStrip(t)
  {
    if b == "" {
      assert t + b == t;
    } else {
      assert (t + b)[..|t + b| - 1] == t + b[..|b| - 1];
      RStripBlank(t, b[..|b| - 1]);
    }
  }

  /** Stripping takes off a blank prefix and a blank suffix, and what is left is trimmed. */
  lemma {:induction false} LStripParts(s: string) returns (a: string)
    ensures s == a + LStrip(s) && Blank(a)
    ensures LStrip(s) != "" ==> !IsSpace(LStrip(s)[0])
  {
    if s != "" && IsSpace(s[0]) {
      var a' := LStripParts(s[1..]);
      a := [s[0]] + a';
      assert s == [s[0]] + s[1..];
    } else {
      a := "";
    }
  }

  lemma {:induction false} RStripParts(s: string) returns (b: string)
    ensures s == RStrip(s) + b && Blank(b)
    ensures RStrip(s) != "" ==> !IsSpace(Last(RStrip(s))) && RStrip(s)[0] == s[0]
  {
    if s != "" && IsSpace(Last(s)) {
      var b' := RStripParts(Init(s));
      b := b' + [Last(s)];
      assert s == Init(s) + [Last(s)];
    } else {
      b := "";
    }
  }

  lemma StripParts(s: string) returns (a: string, b: string)
    ensures s == a + Strip(s) + b && Blank(a) && Blank(b) && Trimmed(Strip(s))
  {
    a := LStripParts(s);
    b := RStripParts(LStrip(s));
  }

  /** The converse: white space around a trimmed text is exactly what stripping removes. */
  lemma StripOf(a: string, m: string, b: string)
    requires Blank(a) && Blank(b) && Trimmed(m)
    ensures Strip(a + m + b) == m
  {
    assert a + m + b == a + (m + b);
    LStripBlank(a, m + b);
    if m == "" {
      assert m + b == b;
      LStripBlank(b, "");
      assert b + "" == b;
    } else {
      assert LStrip(m + b) == m + b;
      RStripBlank(m, b);
    }
  }

  lemma StripTrimmed(m: string)
    requires Trimmed(m)
    ensures Strip(m) == m
  {
    StripOf("", m, "");
    assert "" + m + "" == m;
  }

  /** Only blank texts strip to nothing. */
  lemma StripEmpty(s: string)
    ensures Strip(s) == "" <==> Blank(s)
  {
    var a, b := StripParts(s);
    if Strip(s) != "" {
      assert s[|a|] == Strip(s)[0] && !IsSpace(s[|a|]);
    }
  }

  predicate Within(part: string, s: string) {
    forall c | c in part :: c in s
  }

  /** Stripping adds no character. */
  lemma StripWithin(s: string)
    ensures Within(Strip(s), s) && Trimmed(Strip(s))
  {
    var a, b := StripParts(s);
  }

  /** White space on the outside of a line is irrelevant to its stripped form. */
  lemma StripIgnoresBlank(a: string, s: string, b: string)
    requires Blank(a) && Blank(b)
    ensures Strip(a + s + b) == Strip(s)
  {
    var p, q := StripParts(s);
    assert a + s + b == (a + p) + Strip(s) + (q + b);
    StripOf(a + p, Strip(s), q + b);
  }

  // ---- split ----

  lemma {:induction false} SplitFromPieces(piece: string, s: string, sep: char)
    requires sep !in piece
    ensures forall p | p in SplitFrom(piece, s, sep) :: sep !in p
    decreases |s|
  {
    if s != "" {
      SplitFromPieces(if s[0] == sep then "" else piece + [s[0]], s[1..], sep);
    }
  }

  lemma {:induction false} SplitFromPlain(piece: string, p: string, t: string, sep: char)
    requires sep !in p
    ensures SplitFrom(piece, p + t, sep) == SplitFrom(piece + p, t, sep)
    decreases |p|
  {
    if p == "" {
      assert p + t == t && piece + p == piece;
    } else {
      assert (p + t)[1..] == p[1..] + t;
      SplitFromPlain(piece + [p[0]], p[1..], t, sep);
      assert piece + [p[0]] + p[1..] == piece + p;
    }
  }

  lemma SplitPlain(s: string, sep: char)
    requires sep !in s
    ensures Split(s, sep) == [s]
  {
    SplitFromPlain("", s, "", sep);
    assert s + "" == s && "" + s == s;
  }

  lemma {:induction false} SplitFromConcat(piece: string, s: string, t: string, sep: char)
    ensures SplitFrom(piece, s + t, sep)
         == Init(SplitFrom(piece, s, sep)) + SplitFrom(Last(SplitFrom(piece, s, sep)), t, sep)
    decreases |s|
  {
    if s == "" {
      assert s + t == t;
    } else {
      assert (s + t)[1..] == s[1..] + t;
      if s[0] == sep {
        SplitFromConcat("", s[1..], t, sep);
      } else {
        SplitFromConcat(piece + [s[0]], s[1..], t, sep);
      }
    }
  }

  /** Splitting a concatenation: only the last piece of the first text is still open. */
  lemma SplitConcat(s: string, t: string, sep: char)
    ensures Split(s + t, sep) == Init(Split(s, sep)) + Split(Last(Split(s, sep)) + t, sep)
  {
    SplitFromConcat("", s, t, sep);
    var open := Last(Split(s, sep));
    SplitFromPieces("", s, sep);
    SplitFromPlain("", open, t, sep);
    assert "" + open == open;
  }

  /** An open piece only lengthens the first piece of what follows. */
  lemma {:induction false} SplitFirstPiece(piece: string, s: string, sep: char)
    ensures SplitFrom(piece, s, sep) == [piece + Split(s, sep)[0]] + Split(s, sep)[1..]
    decreases |s|
  {
    if s == "" || s[0] == sep {
      assert piece + "" == piece;
    } else {
      SplitFirstPiece(piece + [s[0]], s[1..], sep);
      SplitFirstPiece([s[0]], s[1..], sep);
      assert "" + [s[0]] == [s[0]];
      var next := Split(s[1..], sep)[0];
      assert piece + [s[0]] + next == piece + ([s[0]] + next);
    }
  }

  lemma SplitAtSeparator(p: string, t: string, sep: char)
    requires sep !in p
    ensures Split(p + [sep] + t, sep) == [p] + Split(t, sep)
  {
    assert p + [sep] + t == p + ([sep] + t);
    SplitFromPlain("", p, [sep] + t, sep);
    assert "" + p == p && ([sep] + t)[1..] == t;
  }

  lemma {:induction false} JoinSplit(pieces: seq<string>, sep: char)
    requires pieces != [] && forall i | 0 <= i < |pieces| :: sep !in pieces[i]
    ensures Split(Join(pieces, [sep]), sep) == pieces
  {
    if |pieces| == 1 {
      SplitPlain(pieces[0], sep);
    } else {
      var tail := Join(pieces[1..], [sep]);
      assert Join(pieces, [sep]) == pieces[0] + [sep] + tail;
      JoinSplit(pieces[1..], sep);
      SplitAtSeparator(pieces[0], tail, sep);
      assert pieces == [pieces[0]] + pieces[1..];
    }
  }

  /** Joining the pieces again gives back the text. */
  lemma {:induction false} JoinSplitFrom(piece: string, s: string, sep: char)
    ensures Join(SplitFrom(piece, s, sep), [sep]) == piece + s
    decreases |s|
  {
    if s == "" {
      assert piece + s == piece;
    } else if s[0] == sep {
      JoinSplitFrom("", s[1..], sep);
      var tail := SplitFrom("", s[1..], sep);
      assert ([piece] + tail)[1..] == tail;
      assert "" + s[1..] == s[1..] && piece + [sep] + s[1..] == piece + s;
    } else {
      JoinSplitFrom(piece + [s[0]], s[1..], sep);
      assert piece + [s[0]] + s[1..] == piece + s;
    }
  }

  lemma SplitBetween(a: string, b: string, sep: char)
    ensures Split(a + [sep] + b, sep) == Split(a, sep) + Split(b, sep)
  {
    SplitConcat(a, [sep] + b, sep);
    SplitFromPieces("", a, sep);
    var open := Last(Split(a, sep));
    assert open + ([sep] + b) == open + [sep] + b && a + ([sep] + b) == a + [sep] + b;
    SplitAtSeparator(open, b, sep);
    assert Split(a, sep) == Init(Split(a, sep)) + [open];
  }

  // ---- lines ----

  lemma {:induction false} LinesFromPlain(line: string, p: string, t: string)
    requires NoBreak(p)
    ensures LinesFrom(line, p + t) == LinesFrom(line + p, t)
    decreases |p|
  {
    if p == "" {
      assert p + t == t && line + p == line;
    } else {
      assert (p + t)[1..] == p[1..] + t;
      LinesFromPlain(line + [p[0]], p[1..], t);
      assert line + [p[0]] + p[1..] == line + p;
    }
  }

  lemma {:induction false} LinesHaveNoBreaks(line: string, s: string)
    requires NoBreak(line)
    ensures forall l | l in LinesFrom(line, s) :: NoBreak(l)
    decreases |s|
  {
    if s != "" {
      if IsLineBreak(s[0]) {
        LinesHaveNoBreaks("", s[BreakLength(s)..]);
      } else {
        LinesHaveNoBreaks(line + [s[0]], s[1..]);
      }
    }
  }
}
