/** UTF-8 encoding of strings, as `TextEncoder.encode` does it. A Dafny `char` is a Unicode
    scalar value, so every character has exactly one encoding of one to four bytes. */
module Encoding {

  newtype byte = x: int | 0 <= x < 0x100

  const CR: byte := 13
  const LF: byte := 10

  /** The UTF-8 bytes of one character: ASCII stays one byte, everything else becomes
      a lead byte >= 0xC0 followed by continuation bytes in 0x80..0xBF. */
  function EncodeChar(c: char): (b: seq<byte>)
    ensures 1 <= |b| <= 4
    ensures c as int < 0x80 ==> b == [c as int as byte]
    ensures c as int >= 0x80 ==> forall k :: 0 <= k < |b| ==> b[k] >= 0x80
  {
    var n := c as int;
    if n < 0x80 then [n as byte]
    else if n < 0x800 then [(0xC0 + n / 0x40) as byte, (0x80 + n % 0x40) as byte]
    else if n < 0x10000 then
      [(0xE0 + n / 0x1000) as byte, (0x80 + (n / 0x40) % 0x40) as byte, (0x80 + n % 0x40) as byte]
    else
      [(0xF0 + n / 0x40000) as byte, (0x80 + (n / 0x1000) % 0x40) as byte,
       (0x80 + (n / 0x40) % 0x40) as byte, (0x80 + n % 0x40) as byte]
  }

  /** `new TextEncoder().encode(s)` */
  function Encode(s: string): seq<byte> {
    if s == [] then [] else EncodeChar(s[0]) + Encode(s[1..])
  }

  /** Encoding a concatenation concatenates the encodings. */
  lemma {:induction false} EncodeAppend(a: string, b: string)
    ensures Encode(a + b) == Encode(a) + Encode(b)
  {
    if a == [] {
      assert a + b == b;
    } else {
      var c, rest := a[0], a[1..];
      assert a + b == [c] + (rest + b);
      assert Encode([c] + (rest + b)) == EncodeChar(c) + Encode(rest + b) by {
        assert ([c] + (rest + b))[1..] == rest + b;
      }
      EncodeAppend(rest, b);
    }
  }

  /** An ASCII byte appears in the encoding only where its own character appears in the string:
      multi-byte sequences consist of bytes >= 0x80. */
  lemma {:induction false} EncodeKeepsAsciiOut(s: string, c: char)
    requires c as int < 0x80 && c !in s
    ensures c as int as byte !in Encode(s)
  {
    if s != [] {
      EncodeKeepsAsciiOut(s[1..], c);
      assert Encode(s) == EncodeChar(s[0]) + Encode(s[1..]);
    }
  }
}
