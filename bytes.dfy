/**
 * Bytes and fixed-width integers as the .NET runtime stores them, and the byte order of
 * `System.BitConverter` on a little-endian machine (least significant byte first).
 */
module Bytes {

  type byte = x: int | 0 <= x < 0x100
  type sbyte = x: int | -0x80 <= x < 0x80
  type int16 = x: int | -0x8000 <= x < 0x8000
  type uint16 = x: int | 0 <= x < 0x1_0000
  type int32 = x: int | -0x8000_0000 <= x < 0x8000_0000
  type uint32 = x: int | 0 <= x < 0x1_0000_0000
  type int64 = x: int | -0x8000_0000_0000_0000 <= x < 0x8000_0000_0000_0000
  type uint64 = x: int | 0 <= x < 0x1_0000_0000_0000_0000

  const MaxInt32: int := 0x7FFF_FFFF

  /** 256 to the power `n`: the number of values `n` bytes can hold. */
  function Pow256(n: nat): (p: nat)
    ensures p > 0
  {
    if n == 0 then 1 else 256 * Pow256(n - 1)
  }

  lemma Pow256Values()
    ensures Pow256(1) == 0x100 && Pow256(2) == 0x1_0000
    ensures Pow256(4) == 0x1_0000_0000 && Pow256(8) == 0x1_0000_0000_0000_0000
  {
  }

  /** The `width` bytes of the unsigned value `v`, least significant first. */
  function LittleEndian(v: nat, width: nat): (r: seq<byte>)
    requires v < Pow256(width)
    ensures |r| == width
  {
    if width == 0 then [] else [v % 256] + LittleEndian(v / 256, width - 1)
  }

  /** The unsigned value of a little-endian byte string. */
  function FromLittleEndian(s: seq<byte>): (v: nat)
    ensures v < Pow256(|s|)
  {
    if s == [] then 0 else s[0] + 256 * FromLittleEndian(s[1..])
  }

  /** Reading back what `LittleEndian` wrote gives the value that was written. */
  lemma {:induction false} LittleEndianRoundTrip(v: nat, width: nat)
    requires v < Pow256(width)
    ensures FromLittleEndian(LittleEndian(v, width)) == v
  {
    if width > 0 {
      var r := LittleEndian(v, width);
      assert r[1..] == LittleEndian(v / 256, width - 1);
      LittleEndianRoundTrip(v / 256, width - 1);
    }
  }

  /** Every byte string is the little-endian form of its value: the encoding is onto. */
  lemma {:induction false} FromLittleEndianRoundTrip(s: seq<byte>)
    ensures LittleEndian(FromLittleEndian(s), |s|) == s
  {
    if s != [] {
      var v := FromLittleEndian(s);
      assert v % 256 == s[0] && v / 256 == FromLittleEndian(s[1..]);
      FromLittleEndianRoundTrip(s[1..]);
    }
  }

  /**
   * `BitConverter.GetBytes` for an integer of `width` bytes: the two's-complement bit pattern
   * (Dafny's `%` is Euclidean, so a negative value maps to `v + 256^width`).
   */
  function IntBytes(v: int, width: nat): (r: seq<byte>)
    ensures |r| == width
  {
    LittleEndian(v % Pow256(width), width)
  }

  /** `BitConverter.ToUInt16`: the two bytes at `i` as an unsigned value. */
  function ToUInt16(s: seq<byte>, i: nat): (v: uint16)
    requires i + 2 <= |s|
  {
    Pow256Values();
    FromLittleEndian(s[i..i + 2])
  }

  /** `BitConverter.ToInt32`: the four bytes at `i` as a two's-complement value. */
  function ToInt32(s: seq<byte>, i: nat): (v: int32)
    requires i + 4 <= |s|
  {
    Pow256Values();
    var u := FromLittleEndian(s[i..i + 4]);
    if u < 0x8000_0000 then u else u - 0x1_0000_0000
  }

  /** `BitConverter.ToInt64`: the eight bytes at `i` as a two's-complement value. */
  function ToInt64(s: seq<byte>, i: nat): (v: int64)
    requires i + 8 <= |s|
  {
    Pow256Values();
    var u := FromLittleEndian(s[i..i + 8]);
    if u < 0x8000_0000_0000_0000 then u else u - 0x1_0000_0000_0000_0000
  }

  /** Four bytes read with `ToInt32` are written back unchanged by `BitConverter.GetBytes`. */
  lemma Int32Bytes(s: seq<byte>, i: nat)
    requires i + 4 <= |s|
    ensures IntBytes(ToInt32(s, i), 4) == s[i..i + 4]
  {
    Pow256Values();
    var u := FromLittleEndian(s[i..i + 4]);
    FromLittleEndianRoundTrip(s[i..i + 4]);
    assert u < 0x1_0000_0000;
    assert ToInt32(s, i) % 0x1_0000_0000 == u;
  }

  /** An `int` written by `BitConverter.GetBytes` reads back unchanged with `ToInt32`. */
  lemma Int32RoundTrip(v: int32, prefix: seq<byte>, suffix: seq<byte>)
    ensures ToInt32(prefix + IntBytes(v, 4) + suffix, |prefix|) == v
  {
    Pow256Values();
    var s := prefix + IntBytes(v, 4) + suffix;
    assert s[|prefix|..|prefix| + 4] == IntBytes(v, 4);
    LittleEndianRoundTrip(v % Pow256(4), 4);
  }

  /** A `ushort` written by `BitConverter.GetBytes` reads back unchanged with `ToUInt16`. */
  lemma UInt16RoundTrip(v: uint16, prefix: seq<byte>, suffix: seq<byte>)
    ensures ToUInt16(prefix + IntBytes(v, 2) + suffix, |prefix|) == v
  {
    Pow256Values();
    var s := prefix + IntBytes(v, 2) + suffix;
    assert s[|prefix|..|prefix| + 2] == IntBytes(v, 2);
    LittleEndianRoundTrip(v % Pow256(2), 2);
  }

  /** A `long` written by `BitConverter.GetBytes` reads back unchanged with `ToInt64`. */
  lemma Int64RoundTrip(v: int64, prefix: seq<byte>, suffix: seq<byte>)
    ensures ToInt64(prefix + IntBytes(v, 8) + suffix, |prefix|) == v
  {
    Pow256Values();
    var s := prefix + IntBytes(v, 8) + suffix;
    assert s[|prefix|..|prefix| + 8] == IntBytes(v, 8);
    LittleEndianRoundTrip(v % Pow256(8), 8);
  }
}
