/** The WXT5xx 16-bit CRC (wxt5xx/message.py, `crc16`): reflected polynomial
    0xA001, initial register 0, eight shift/XOR steps per character, folded
    into three printable characters.

    Python's register is an unbounded integer. Here it is a `bv32`, which is
    exact: a character code is below 2^21 and no step sets a bit above it. */
module Crc {
  import opened Text

  const Poly: bv32 := 0xA001
  const Wide: bv32 := 0x20_0000

  /** One shift/XOR step of the inner loop. */
  function Step(c: bv32): (r: bv32)
    ensures c < Wide ==> r < Wide
    ensures c < 0x1_0000 ==> r < 0x1_0000
  {
    if c & 1 == 1 then (c >> 1) ^ Poly else c >> 1
  }

  /** `n` rounds of Step. */
  function Rounds(c: bv32, n: nat): (r: bv32)
    ensures c < Wide ==> r < Wide
    ensures c < 0x1_0000 ==> r < 0x1_0000
  {
    if n == 0 then c else Step(Rounds(c, n - 1))
  }

  /** The register after one more character. */
  function Update(c: bv32, a: char): (r: bv32)
    requires c < Wide
    ensures r < Wide
    ensures c < 0x1_0000 && a as int < 256 ==> r < 0x1_0000
  {
    Rounds(c ^ (a as int as bv32), 8)
  }

  /** The register after the whole message. */
  function Register(msg: string): (r: bv32)
    ensures r < Wide
    ensures IsBytes(msg) ==> r < 0x1_0000
  {
    if |msg| == 0 then 0
    else Update(Register(msg[..|msg| - 1]), msg[|msg| - 1])
  }

  /** The three characters `0x40 | (c >> 12)`, `0x40 | ((c >> 6) & 0x3f)`,
      `0x40 | (c & 0x3f)`. */
  function Fold(c: bv32): (r: string)
    requires c < Wide
    ensures |r| == 3
    ensures forall i :: 0 <= i < 3 ==> r[i] as int >= 0x40
    ensures c < 0x1_0000 ==> '@' <= r[0] <= 'O' && r[1] as int <= 0x7f && r[2] as int <= 0x7f
  {
    var hi, mid, lo := 0x40 | (c >> 12), 0x40 | ((c >> 6) & 0x3f), 0x40 | (c & 0x3f);
    assert hi < 0x400 && mid < 0x80 && lo < 0x80;
    [hi as int as char, mid as int as char, lo as int as char]
  }

  /** `crc16(msg)` as a value, for use in specifications. */
  function Checksum(msg: string): (r: string)
    ensures |r| == 3 && forall i :: 0 <= i < 3 ==> !IsSpace(r[i])
  {
    Fold(Register(msg))
  }

  /** The checksum of a byte string is three characters, the first in
      '@'..'O' and the other two in '@'..DEL; none is whitespace. */
  lemma ChecksumShape(msg: string)
    requires IsBytes(msg)
    ensures var r := Checksum(msg);
      && |r| == 3
      && '@' <= r[0] <= 'O'
      && '@' <= r[1] && r[1] as int <= 0x7f
      && '@' <= r[2] && r[2] as int <= 0x7f
      && forall i :: 0 <= i < 3 ==> !IsSpace(r[i])
  {
  }

  /** `crc16`: the loops over the characters and over the eight steps. */
  method Crc16(msg: string) returns (r: string)
    ensures r == Checksum(msg)
    ensures |r| == 3 && forall i :: 0 <= i < 3 ==> !IsSpace(r[i])
  {
    var c: bv32 := 0;
    for i := 0 to |msg|
      invariant c == Register(msg[..i])
    {
      c := c ^ (msg[i] as int as bv32);
      ghost var start := c;
      for k := 0 to 8
        invariant c == Rounds(start, k)
      {
        if c & 1 == 1 {
          c := c >> 1;
          c := c ^ Poly;
        } else {
          c := c >> 1;
        }
      }
      assert msg[..i + 1][..i] == msg[..i];
    }
    assert msg[..|msg|] == msg;
    r := Fold(c);
  }
}
