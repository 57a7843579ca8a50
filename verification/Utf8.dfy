/** The UTF-8 encoding (RFC 3629, section 3): it is one that whole reads can be told by. */
module Utf8 {
  import opened Text
  import opened Narration

  /** The code of one character. */
  function Code(c: char): (code: seq<Byte>)
    ensures code != []
  {
    var n := c as int;
    var high, higher := n / 64, n / 64 / 64;
    if n < 0x80 then [n]
    else if n < 0x800 then [0xC0 + high, 0x80 + n % 64]
    else if n < 0x1_0000 then [0xE0 + higher, 0x80 + high % 64, 0x80 + n % 64]
    else [0xF0 + higher / 64, 0x80 + higher % 64, 0x80 + high % 64, 0x80 + n % 64]
  }

  function Encode(s: string): seq<Byte> {
    if s == "" then [] else Code(s[0]) + Encode(s[1..])
  }

  /** The first byte tells the length. */
  lemma SameLength(c: char, d: char)
    requires Code(c)[0] == Code(d)[0]
    ensures |Code(c)| == |Code(d)|
  {
  }

  lemma SameCode(c: char, d: char)
    requires Code(c) == Code(d)
    ensures c == d
  {
    var n, m := c as int, d as int;
    if n >= 0x80 && m >= 0x80 {
      Digits(n);
      Digits(m);
    }
  }

  lemma Digits(n: nat)
    ensures n == n / 64 * 64 + n % 64 && n / 64 == n / 64 / 64 * 64 + n / 64 % 64
    ensures n / 64 / 64 == n / 64 / 64 / 64 * 64 + n / 64 / 64 % 64
  {
  }

  /** No code is the start of another. */
  lemma CodesDiffer(c: char, d: char, x: seq<Byte>, y: seq<Byte>)
    requires Code(c) + x <= Code(d) + y
    ensures c == d && x <= y
  {
    assert (Code(c) + x)[0] == (Code(d) + y)[0];
    SameLength(c, d);
    assert (Code(c) + x)[..|Code(c)|] == Code(c) && (Code(d) + y)[..|Code(c)|] == Code(d);
    SameCode(c, d);
    assert (Code(c) + x)[|Code(c)|..] == x && (Code(d) + y)[|Code(c)|..] == y;
  }

  lemma {:induction false} EncodeConcat(a: string, b: string)
    ensures Encode(a + b) == Encode(a) + Encode(b)
  {
    if a == "" {
      assert a + b == b;
    } else {
      assert (a + b)[1..] == a[1..] + b;
      EncodeConcat(a[1..], b);
    }
  }

  lemma {:induction false} PrefixLaw(a: string, b: string)
    requires Encode(a) <= Encode(b)
    ensures a <= b
  {
    if a != "" && b != "" {
      CodesDiffer(a[0], b[0], Encode(a[1..]), Encode(b[1..]));
      PrefixLaw(a[1..], b[1..]);
    }
  }

  /** So a decoder that undoes it, whatever it makes of other bytes, has the laws that the text of several
      reads relies on. */
  lemma Utf8Encodes(decode: Decode)
    requires forall s :: decode(Encode(s)) == s
    ensures Encodes(Encode, decode)
  {
    forall a, b
      ensures Encode(a + b) == Encode(a) + Encode(b)
      ensures Encode(a) <= Encode(b) ==> a <= b
    {
      EncodeConcat(a, b);
      if Encode(a) <= Encode(b) { PrefixLaw(a, b); }
    }
  }

  const REPLACEMENT := '\U{FFFD}'

  /** A read that ends inside a character: each half of U+00E9 is replaced, and the character is gone. */
  lemma SplitCharacterExample(decode: Decode)
    requires (forall s :: decode(Encode(s)) == s) && decode([0xC3]) == decode([0xA9]) == [REPLACEMENT]
    ensures var reads_, out := [[0xC3], [0xA9]], [0xC3, 0xA9];
            && Flat(reads_) == out && decode(out) == ['\U{E9}']
            && Decoded(decode, reads_) == [REPLACEMENT, REPLACEMENT] && !WholeCharacters(decode, reads_, out)
  {
    var reads_: seq<seq<Byte>>, out: seq<Byte> := [[0xC3], [0xA9]], [0xC3, 0xA9];
    var first: seq<seq<Byte>> := [[0xC3]];
    assert Init(reads_) == first && Init(first) == [] && Flat(first) == [0xC3] && Flat(reads_) == out;
    assert Decoded(decode, first) == [REPLACEMENT];
    var c := '\U{E9}';
    assert Code(c) == out && [c][1..] == "" && Encode([c]) == out + [] == out;
    if WholeCharacters(decode, reads_, out) {
      WholeCharacterReads(decode, reads_, out);
    }
  }
}
