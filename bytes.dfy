/** Little-endian integers inside byte payloads, as Python's `struct` reads and writes them. */
module Bytes {

  type byte = x: int | 0 <= x < 256

  /** `struct.unpack_from("<H", s, i)`: an unsigned 16-bit little-endian value. */
  function U16At(s: seq<byte>, i: nat): (v: int)
    requires i + 2 <= |s|
    ensures 0 <= v < 0x1_0000
  {
    s[i] as int + 256 * (s[i + 1] as int)
  }

  /** `struct.unpack_from("<h", s, i)`: a two's-complement signed 16-bit value. */
  function S16At(s: seq<byte>, i: nat): (v: int)
    requires i + 2 <= |s|
    ensures -0x8000 <= v < 0x8000
    ensures v % 0x1_0000 == U16At(s, i)
  {
    var u := U16At(s, i);
    if u >= 0x8000 then u - 0x1_0000 else u
  }

  /** `struct.pack("<H", v)`. */
  function EncodeU16(v: int): (b: seq<byte>)
    requires 0 <= v < 0x1_0000
    ensures |b| == 2 && U16At(b, 0) == v
  {
    [v % 256, v / 256]
  }

  /** `struct.pack("<h", v)`: only defined on the signed 16-bit range (Python raises outside it). */
  function EncodeS16(v: int): (b: seq<byte>)
    requires -0x8000 <= v < 0x8000
    ensures |b| == 2 && S16At(b, 0) == v
  {
    EncodeU16(if v < 0 then v + 0x1_0000 else v)
  }

  /** Encoding the value read from two bytes gives those bytes back. */
  lemma S16Encoding(s: seq<byte>, i: nat)
    requires i + 2 <= |s|
    ensures EncodeS16(S16At(s, i)) == s[i..i + 2]
  {
    var b := EncodeS16(S16At(s, i));
    assert b[0] == s[i] && b[1] == s[i + 1];
  }
}
