/** Bytes, big-endian integers and optional values, shared by the protocols. */
module Basics {
  type byte = x: int | 0 <= x < 256
  type u16 = n: int | 0 <= n < 0x1_0000
  type u32 = n: int | 0 <= n < 0x1_0000_0000

  datatype Option<+T> = None | Some(value: T)

  function U16(n: u16): (b: seq<byte>)
    ensures |b| == 2 && GetU16(b) == n
  {
    [n / 256, n % 256]
  }

  function GetU16(b: seq<byte>): u16
    requires |b| >= 2
  {
    var high: int, low: int := b[0], b[1];
    high * 256 + low
  }

  function U32(n: u32): (b: seq<byte>)
    ensures |b| == 4 && GetU32(b) == n
  {
    assert (U16(n / 0x1_0000) + U16(n % 0x1_0000))[2..] == U16(n % 0x1_0000);
    U16(n / 0x1_0000) + U16(n % 0x1_0000)
  }

  function GetU32(b: seq<byte>): u32
    requires |b| >= 4
  {
    var high: int, low: int := GetU16(b), GetU16(b[2..]);
    high * 0x1_0000 + low
  }

  lemma U16Inverse(b: seq<byte>)
    requires |b| >= 2
    ensures U16(GetU16(b)) == b[..2]
  {
  }

  lemma Word(n: u32, rest: seq<byte>)
    ensures GetU32(U32(n) + rest) == n && (U32(n) + rest)[4..] == rest
  {
  }
}
