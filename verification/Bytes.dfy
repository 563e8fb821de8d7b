/** Bytes and little-endian numbers. */
module Bytes {

  type byte = n: nat | n < 256
  type u16 = n: nat | n < 0x1_0000
  type u32 = n: nat | n < 0x1_0000_0000

  function Horner(high: nat, low: byte): nat { 256 * high + low }

  function Le16(u: u16): (b: seq<byte>)
    ensures |b| == 2
  {
    [u % 256, u / 256]
  }

  function FromLe16(b: seq<byte>): (u: u16)
    requires |b| == 2
    ensures u == b[0] + 0x100 * (b[1] as int)
  {
    Horner(b[1], b[0])
  }

  function Le32(u: u32): (b: seq<byte>)
    ensures |b| == 4
  {
    [u % 256, u / 256 % 256, u / 256 / 256 % 256, u / 256 / 256 / 256]
  }

  function FromLe32(b: seq<byte>): (u: u32)
    requires |b| == 4
    ensures u == b[0] + 0x100 * (b[1] as int) + 0x1_0000 * (b[2] as int) + 0x100_0000 * (b[3] as int)
  {
    Horner(Horner(Horner(b[3], b[2]), b[1]), b[0])
  }

  lemma LeRoundTrip(u: u32)
    ensures FromLe32(Le32(u)) == u
  {
    var v := u / 256;
    var w := v / 256;
    assert Horner(w / 256, w % 256) == w && Horner(w, v % 256) == v && Horner(v, u % 256) == u;
  }

  lemma Le16RoundTrip(u: u16)
    ensures FromLe16(Le16(u)) == u
  {
  }
}
