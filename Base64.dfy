/** Base 64 encoding with padding, as in section 4 of RFC 4648: the text
    form `Convert.ToBase64String` gives a fingerprint's bytes. */
module Base64 {
  import opened Types

  /** A character that can occur in an encoding: a letter of the alphabet
      `A`-`Z`, `a`-`z`, `0`-`9`, `+`, `/`, or the pad `=`. */
  predicate IsEncodingChar(c: char)
  {
    ('A' <= c <= 'Z') || ('a' <= c <= 'z') || ('0' <= c <= '9') || c == '+' || c == '/' || c == '='
  }

  /** The 6-bit group an alphabet letter stands for; 0 for any other character. */
  function DigitValue(c: char): (v: int)
    ensures 0 <= v < 64
  {
    if 'A' <= c <= 'Z' then c as int - 'A' as int
    else if 'a' <= c <= 'z' then c as int - 'a' as int + 26
    else if '0' <= c <= '9' then c as int - '0' as int + 52
    else if c == '+' then 62
    else if c == '/' then 63
    else 0
  }

  /** The alphabet letter of a 6-bit group. */
  function Digit(v: int): (c: char)
    requires 0 <= v < 64
    ensures IsEncodingChar(c) && c != '='
    ensures DigitValue(c) == v
  {
    if v < 26 then 'A' + v as char
    else if v < 52 then 'a' + (v - 26) as char
    else if v < 62 then '0' + (v - 52) as char
    else if v == 62 then '+'
    else '/'
  }

  /** Four letters for three bytes. */
  function Group3(b0: byte, b1: byte, b2: byte): (q: string)
    ensures |q| == 4 && forall i :: 0 <= i < 4 ==> IsEncodingChar(q[i])
  {
    var x, y, z := b0 as int, b1 as int, b2 as int;
    [Digit(x / 4), Digit(x % 4 * 16 + y / 16), Digit(y % 16 * 4 + z / 64), Digit(z % 64)]
  }

  /** Three letters and a pad for two final bytes. */
  function Group2(b0: byte, b1: byte): (q: string)
    ensures |q| == 4 && forall i :: 0 <= i < 4 ==> IsEncodingChar(q[i])
  {
    var x, y := b0 as int, b1 as int;
    [Digit(x / 4), Digit(x % 4 * 16 + y / 16), Digit(y % 16 * 4), '=']
  }

  /** Two letters and two pads for one final byte. */
  function Group1(b0: byte): (q: string)
    ensures |q| == 4 && forall i :: 0 <= i < 4 ==> IsEncodingChar(q[i])
  {
    var x := b0 as int;
    [Digit(x / 4), Digit(x % 4 * 16), '=', '=']
  }

  /** Every three bytes become four letters; a final one or two bytes
      become two or three letters padded with `=` to four. */
  function Encode(b: seq<byte>): (s: string)
    ensures |s| == 4 * ((|b| + 2) / 3)
    ensures forall i :: 0 <= i < |s| ==> IsEncodingChar(s[i])
    decreases |b|
  {
    if |b| == 0 then ""
    else if |b| == 1 then Group1(b[0])
    else if |b| == 2 then Group2(b[0], b[1])
    else
      var head, tail := Group3(b[0], b[1], b[2]), Encode(b[3..]);
      assert (|b| - 3 + 2) / 3 + 1 == (|b| + 2) / 3;
      assert forall i :: 4 <= i < |head + tail| ==> (head + tail)[i] == tail[i - 4];
      head + tail
  }

  /** Base 64 decoding of text in the form `Encode` produces: four letters
      give three bytes, and a pad in the third or fourth place ends the
      text after one or two bytes. */
  function Decode(s: string): seq<byte>
    decreases |s|
  {
    if |s| < 4 then []
    else
      var v0, v1, v2, v3 := DigitValue(s[0]), DigitValue(s[1]), DigitValue(s[2]), DigitValue(s[3]);
      var x := (v0 * 4 + v1 / 16) as byte;
      if s[2] == '=' then [x]
      else
        var y := (v1 % 16 * 16 + v2 / 4) as byte;
        if s[3] == '=' then [x, y]
        else
          var z := (v2 % 4 * 64 + v3) as byte;
          [x, y, z] + Decode(s[4..])
  }

  /** The bit arithmetic of one group: the 6-bit groups of three bytes
      give the bytes back. */
  lemma Regroup(x: int, y: int, z: int)
    requires 0 <= x < 256 && 0 <= y < 256 && 0 <= z < 256
    ensures x / 4 * 4 + (x % 4 * 16 + y / 16) / 16 == x
    ensures (x % 4 * 16 + y / 16) % 16 * 16 + (y % 16 * 4 + z / 64) / 4 == y
    ensures (y % 16 * 4 + z / 64) % 4 * 64 + z % 64 == z
  {
    assert (x % 4 * 16 + y / 16) / 16 == x % 4 && (x % 4 * 16 + y / 16) % 16 == y / 16;
    assert (y % 16 * 4 + z / 64) / 4 == y % 16 && (y % 16 * 4 + z / 64) % 4 == z / 64;
  }

  lemma DecodeGroup1(b0: byte)
    ensures Decode(Group1(b0)) == [b0]
  {
    Regroup(b0 as int, 0, 0);
  }

  lemma DecodeGroup2(b0: byte, b1: byte)
    ensures Decode(Group2(b0, b1)) == [b0, b1]
  {
    Regroup(b0 as int, b1 as int, 0);
  }

  lemma DecodeGroup3(b0: byte, b1: byte, b2: byte, tail: string)
    ensures Decode(Group3(b0, b1, b2) + tail) == [b0, b1, b2] + Decode(tail)
  {
    var head := Group3(b0, b1, b2);
    assert (head + tail)[..4] == head && (head + tail)[4..] == tail;
    Regroup(b0 as int, b1 as int, b2 as int);
  }

  /** Decoding undoes encoding. */
  lemma {:induction false} DecodeEncode(b: seq<byte>)
    ensures Decode(Encode(b)) == b
    decreases |b|
  {
    if |b| == 1 {
      DecodeGroup1(b[0]);
    } else if |b| == 2 {
      DecodeGroup2(b[0], b[1]);
    } else if |b| > 2 {
      var rest := b[3..];
      assert Encode(b) == Group3(b[0], b[1], b[2]) + Encode(rest);
      DecodeGroup3(b[0], b[1], b[2], Encode(rest));
      DecodeEncode(rest);
      assert b == [b[0], b[1], b[2]] + rest;
    }
  }

  /** Different byte sequences have different encodings. */
  lemma EncodeInjective(a: seq<byte>, b: seq<byte>)
    ensures Encode(a) == Encode(b) ==> a == b
  {
    DecodeEncode(a);
    DecodeEncode(b);
  }

  /** No encoding contains a colon. */
  lemma NoColon(b: seq<byte>)
    ensures ':' !in Encode(b)
  {
  }
}
