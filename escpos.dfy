/** The Epson ESC/POS control sequences the printer client sends, and the
    UTF-8 encoding `TextEncoder` applies to the text it sends. */
module EscPos {

  import opened Wrappers

  newtype byte = x: int | 0 <= x < 256

  /** ESC @: reset the printer to its power-on state. */
  const Initialize: seq<byte> := [0x1B, 0x40]
  /** ESC E 1 / ESC E 0: emphasised (bold) printing on and off. */
  const BoldOn: seq<byte> := [0x1B, 0x45, 0x01]
  const BoldOff: seq<byte> := [0x1B, 0x45, 0x00]
  /** GS V 0: full paper cut. */
  const FullCut: seq<byte> := [0x1D, 0x56, 0x00]

  datatype Align = Left | Center | Right

  /** ESC a n: justification, n = 0 left, 1 center, 2 right. */
  function AlignCommand(a: Align): (cmd: seq<byte>)
    ensures |cmd| == 3 && cmd[..2] == [0x1B, 0x61]
    ensures cmd[2] == match a case Left => 0 case Center => 1 case Right => 2
  {
    match a
    case Left => [0x1B, 0x61, 0x00]
    case Center => [0x1B, 0x61, 0x01]
    case Right => [0x1B, 0x61, 0x02]
  }

  const AlignLeft: seq<byte> := AlignCommand(Left)

  /** UTF-8 encoding of one Unicode scalar value. */
  function EncodeChar(c: char): (bs: seq<byte>)
    ensures 1 <= |bs| <= 4
    ensures |bs| == 1 <==> c as int < 0x80
  {
    var cp := c as int;
    if cp < 0x80 then [cp as byte]
    else if cp < 0x800 then [(0xC0 + cp / 64) as byte, (0x80 + cp % 64) as byte]
    else if cp < 0x10000 then
      [(0xE0 + cp / 4096) as byte, (0x80 + cp / 64 % 64) as byte, (0x80 + cp % 64) as byte]
    else
      [(0xF0 + cp / 262144) as byte, (0x80 + cp / 4096 % 64) as byte,
       (0x80 + cp / 64 % 64) as byte, (0x80 + cp % 64) as byte]
  }

  /** `new TextEncoder().encode(s)`: the characters' encodings, one after another. */
  function Encode(s: string): seq<byte>
  {
    if s == [] then [] else EncodeChar(s[0]) + Encode(s[1..])
  }

  /** Encoding a concatenation is concatenating the encodings, so a line and
      its terminator are encoded as they would be separately. */
  lemma {:induction false} EncodeAppend(a: string, b: string)
    ensures Encode(a + b) == Encode(a) + Encode(b)
    decreases |a|
  {
    if a == [] {
      assert a + b == b;
    } else {
      assert (a + b)[0] == a[0];
      assert (a + b)[1..] == a[1..] + b;
      EncodeAppend(a[1..], b);
    }
  }

  predicate IsAscii(s: string) { forall i :: 0 <= i < |s| ==> s[i] as int < 0x80 }

  /** ASCII text goes out one byte per character, each byte the character's code. */
  lemma {:induction false} EncodeAscii(s: string)
    requires IsAscii(s)
    ensures |Encode(s)| == |s|
    ensures forall i :: 0 <= i < |s| ==> Encode(s)[i] as int == s[i] as int
    decreases |s|
  {
    if s != [] {
      EncodeAscii(s[1..]);
    }
  }

  function ScalarToChar(cp: int): Option<char> {
    if 0 <= cp < 0xD800 || 0xE000 <= cp < 0x110000 then Some(cp as char) else None
  }

  /** Reads one UTF-8 sequence off the front: the character and how many bytes it took. */
  function DecodeChar(bs: seq<byte>): (r: Option<(char, nat)>)
    ensures r.Some? ==> 1 <= r.value.1 <= |bs|
  {
    if bs == [] then None
    else
      var b0 := bs[0] as int;
      var n := if b0 < 0x80 then 1 else if b0 < 0xE0 then 2 else if b0 < 0xF0 then 3 else 4;
      if |bs| < n then None
      else
        var cp :=
          if n == 1 then b0
          else if n == 2 then (b0 - 0xC0) * 64 + (bs[1] as int - 0x80)
          else if n == 3 then (b0 - 0xE0) * 4096 + (bs[1] as int - 0x80) * 64 + (bs[2] as int - 0x80)
          else (b0 - 0xF0) * 262144 + (bs[1] as int - 0x80) * 4096 + (bs[2] as int - 0x80) * 64 + (bs[3] as int - 0x80);
        match ScalarToChar(cp)
        case None => None
        case Some(c) => Some((c, n))
  }

  /** UTF-8 decoding, the inverse the printer's firmware applies. */
  function Decode(bs: seq<byte>): Option<string>
    decreases |bs|
  {
    if bs == [] then Some("")
    else
      match DecodeChar(bs)
      case None => None
      case Some((c, n)) =>
        match Decode(bs[n..])
        case None => None
        case Some(rest) => Some([c] + rest)
  }

  lemma DecodeEncodeChar(c: char, rest: seq<byte>)
    ensures DecodeChar(EncodeChar(c) + rest) == Some((c, |EncodeChar(c)|))
  {
    var cp := c as int;
    if cp < 0x80 {
    } else if cp < 0x800 {
      DecodeTwo(c, rest);
    } else if cp < 0x10000 {
      DecodeThree(c, rest);
    } else {
      DecodeFour(c, rest);
    }
  }

  lemma DecodeTwo(c: char, rest: seq<byte>)
    requires 0x80 <= c as int < 0x800
    ensures DecodeChar(EncodeChar(c) + rest) == Some((c, 2))
  {
    var cp := c as int;
    var hi, lo := cp / 64, cp % 64;
    assert 2 <= hi < 32 && cp == hi * 64 + lo;
    var bs := EncodeChar(c) + rest;
    assert bs[0] as int == 0xC0 + hi && bs[1] as int == 0x80 + lo;
    assert ScalarToChar(hi * 64 + lo) == Some(c);
  }

  lemma DecodeThree(c: char, rest: seq<byte>)
    requires 0x800 <= c as int < 0x10000
    ensures DecodeChar(EncodeChar(c) + rest) == Some((c, 3))
  {
    var cp := c as int;
    var q := cp / 64;
    var b, a, z := q / 64, q % 64, cp % 64;
    assert cp == q * 64 + z && q == b * 64 + a;
    assert cp / 4096 == b && cp / 64 % 64 == a;
    assert b < 16;
    var bs := EncodeChar(c) + rest;
    assert bs[0] as int == 0xE0 + b && bs[1] as int == 0x80 + a && bs[2] as int == 0x80 + z;
    assert b * 4096 + a * 64 + z == cp;
    assert ScalarToChar(b * 4096 + a * 64 + z) == Some(c);
  }

  lemma DecodeFour(c: char, rest: seq<byte>)
    requires 0x10000 <= c as int
    ensures DecodeChar(EncodeChar(c) + rest) == Some((c, 4))
  {
    var cp := c as int;
    var q := cp / 64;
    var r := q / 64;
    var d, b, a, z := r / 64, r % 64, q % 64, cp % 64;
    assert cp == q * 64 + z && q == r * 64 + a && r == d * 64 + b;
    assert cp / 262144 == d && cp / 4096 % 64 == b && cp / 64 % 64 == a;
    assert d <= 4;
    var bs := EncodeChar(c) + rest;
    assert bs[0] as int == 0xF0 + d && bs[1] as int == 0x80 + b;
    assert bs[2] as int == 0x80 + a && bs[3] as int == 0x80 + z;
    assert d * 262144 + b * 4096 + a * 64 + z == cp;
    assert ScalarToChar(d * 262144 + b * 4096 + a * 64 + z) == Some(c);
  }

  /** What the client sends can be read back as exactly the text it was given. */
  lemma {:induction false} DecodeEncode(s: string)
    ensures Decode(Encode(s)) == Some(s)
    decreases |s|
  {
    if s != [] {
      var e := EncodeChar(s[0]);
      DecodeEncodeChar(s[0], Encode(s[1..]));
      assert (e + Encode(s[1..]))[|e|..] == Encode(s[1..]);
      DecodeEncode(s[1..]);
      assert [s[0]] + s[1..] == s;
    }
  }
}
