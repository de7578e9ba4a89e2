/**
 * AR.Common/ARPacker.cs: bounds-checked writes of primitive values into a caller's byte
 * buffer at a running index. The C# `ref int index` is an input `index` and an output `next`.
 */
module ARPacker {
  import opened Bytes

  /** The argument of one `Append` overload; the constructor names the overload C# picks. */
  datatype Value =
    | BoolValue(b: bool)
    | CharValue(c: uint16)
    | ByteValue(u8: byte)
    | SByteValue(i8: sbyte)
    | ShortValue(i16: int16)
    | UShortValue(u16: uint16)
    | IntValue(i32: int32)
    | UIntValue(u32: uint32)
    | LongValue(i64: int64)
    | ULongValue(u64: uint64)
    | FloatValue(f32: uint32)   // IEEE-754 bit pattern of the float
    | DoubleValue(f64: uint64)  // IEEE-754 bit pattern of the double

  /** Number of bytes each overload writes. */
  function Width(v: Value): nat
  {
    match v
    case BoolValue(_) => 1
    case ByteValue(_) => 1
    case SByteValue(_) => 1
    case CharValue(_) => 2
    case ShortValue(_) => 2
    case UShortValue(_) => 2
    case IntValue(_) => 4
    case UIntValue(_) => 4
    case FloatValue(_) => 4
    case LongValue(_) => 8
    case ULongValue(_) => 8
    case DoubleValue(_) => 8
  }

  /** `BitConverter.GetBytes` of the value (a `byte` is itself, an `sbyte` its two's complement). */
  function GetBytes(v: Value): (r: seq<byte>)
    ensures |r| == Width(v)
  {
    match v
    case BoolValue(b) => [if b then 1 else 0]
    case ByteValue(x) => [x]
    case SByteValue(x) => IntBytes(x, 1)
    case CharValue(x) => IntBytes(x, 2)
    case ShortValue(x) => IntBytes(x, 2)
    case UShortValue(x) => IntBytes(x, 2)
    case IntValue(x) => IntBytes(x, 4)
    case UIntValue(x) => IntBytes(x, 4)
    case FloatValue(x) => IntBytes(x, 4)
    case LongValue(x) => IntBytes(x, 8)
    case ULongValue(x) => IntBytes(x, 8)
    case DoubleValue(x) => IntBytes(x, 8)
  }

  /** `Encoding.ASCII.GetBytes`: characters above 0x7F become '?'. */
  function AsciiBytes(s: string): (r: seq<byte>)
    ensures |r| == |s|
    ensures forall i :: 0 <= i < |s| ==> r[i] < 0x80
    ensures forall i :: 0 <= i < |s| && s[i] as int < 0x80 ==> r[i] == s[i] as int
  {
    if s == [] then []
    else [if s[0] as int < 0x80 then s[0] as int else '?' as int] + AsciiBytes(s[1..])
  }

  /** `buffer` with `bytes` written at `index` and every other byte as it was. */
  function Written(buffer: seq<byte>, index: nat, bytes: seq<byte>): (r: seq<byte>)
    requires index + |bytes| <= |buffer|
    ensures |r| == |buffer|
  {
    buffer[..index] + bytes + buffer[index + |bytes|..]
  }

  /** Writing one byte is updating that position. */
  lemma WrittenOne(buffer: seq<byte>, index: nat, x: byte)
    requires index < |buffer|
    ensures Written(buffer, index, [x]) == buffer[index := x]
  {
    var w := Written(buffer, index, [x]);
    forall j | 0 <= j < |buffer|
      ensures w[j] == buffer[index := x][j]
    {
      if j < index {
        assert w[j] == buffer[..index][j];
      } else if j > index {
        assert w[j] == buffer[index + 1..][j - index - 1];
      }
    }
  }

  /** What `Written` does, byte by byte: the written range holds `bytes`, the rest is untouched. */
  lemma WrittenAt(buffer: seq<byte>, index: nat, bytes: seq<byte>, j: nat)
    requires index + |bytes| <= |buffer| && j < |buffer|
    ensures index <= j < index + |bytes| ==> Written(buffer, index, bytes)[j] == bytes[j - index]
    ensures !(index <= j < index + |bytes|) ==> Written(buffer, index, bytes)[j] == buffer[j]
  {
  }

  /** After a write, the buffer up to the end of the written range is the old prefix then `bytes`. */
  lemma WrittenPrefix(buffer: seq<byte>, index: nat, bytes: seq<byte>)
    requires index + |bytes| <= |buffer|
    ensures Written(buffer, index, bytes)[..index + |bytes|] == buffer[..index] + bytes
  {
  }

  /** Two writes back to back are one write of both byte strings. */
  lemma WrittenTwice(buffer: seq<byte>, index: nat, first: seq<byte>, second: seq<byte>)
    requires index + |first| + |second| <= |buffer|
    ensures Written(Written(buffer, index, first), index + |first|, second) == Written(buffer, index, first + second)
  {
    var once := Written(buffer, index, first);
    assert once[..index + |first|] == buffer[..index] + first;
    assert once[index + |first| + |second|..] == buffer[index + |first| + |second|..];
  }

  /** `Buffer.BlockCopy(src, 0, dst, offset, src.Length)`. */
  method BlockCopy(src: seq<byte>, dst: array<byte>, offset: nat)
    requires offset + |src| <= dst.Length
    modifies dst
    ensures dst[..] == Written(old(dst[..]), offset, src)
  {
    var i := 0;
    while i < |src|
      invariant 0 <= i <= |src|
      invariant dst[..] == Written(old(dst[..]), offset, src[..i]) 
    {
      dst[offset + i] := src[i];
      i := i + 1;
      assert src[..i] == src[..i - 1] + [src[i - 1]];
    }
    assert src[..i] == src;
  }

  /** The private `append` helper: copy `bytes` when they fit, otherwise change nothing. */
  method AppendBytes(buffer: array<byte>, index: nat, bytes: seq<byte>) returns (ok: bool, next: nat)
    modifies buffer
    ensures ok <==> buffer.Length - index >= |bytes|
    ensures ok ==> next == index + |bytes| && buffer[..] == Written(old(buffer[..]), index, bytes)
    ensures !ok ==> next == index && buffer[..] == old(buffer[..])
  {
    if buffer.Length - index >= |bytes| {
      BlockCopy(bytes, buffer, index);
      return true, index + |bytes|;
    }
    return false, index;
  }

  /** Every fixed-width `Append` overload: write the value's bytes if they fit, else change nothing. */
  method Append(buffer: array<byte>, index: nat, v: Value) returns (ok: bool, next: nat)
    modifies buffer
    ensures ok <==> buffer.Length - index >= Width(v)
    ensures ok ==> next == index + Width(v) && buffer[..] == Written(old(buffer[..]), index, GetBytes(v))
    ensures !ok ==> next == index && buffer[..] == old(buffer[..])
  {
    match v
    case ByteValue(x) =>
      if buffer.Length - index >= 1 {
        WrittenOne(buffer[..], index, x);
        buffer[index] := x;
        return true, index + 1;
      }
      return false, index;
    case SByteValue(x) =>
      if buffer.Length - index >= 1 {
        WrittenOne(buffer[..], index, x % 0x100);
        buffer[index] := x % 0x100;
        assert GetBytes(v) == [x % 0x100];
        return true, index + 1;
      }
      return false, index;
    case _ =>
      ok, next := AppendBytes(buffer, index, GetBytes(v));
  }

  /**
   * `Append(string)` as written: the ASCII bytes go through `append`, then a 0 terminator is
   * written if one more byte fits. When the characters fit but the terminator does not, the
   * characters stay written and the index stays advanced, yet the result is `false`.
   */
  method AppendString(buffer: array<byte>, index: nat, s: string) returns (ok: bool, next: nat)
    modifies buffer
    ensures ok <==> buffer.Length - index >= |s| + 1
    ensures ok ==> next == index + |s| + 1 && buffer[..] == Written(old(buffer[..]), index, AsciiBytes(s) + [0])
    ensures !ok && buffer.Length - index >= |s| ==>
      next == index + |s| && buffer[..] == Written(old(buffer[..]), index, AsciiBytes(s))
    ensures buffer.Length - index < |s| ==> !ok && next == index && buffer[..] == old(buffer[..])
  {
    var bytes := AsciiBytes(s);
    var appended;
    appended, next := AppendBytes(buffer, index, bytes);
    if appended {
      if buffer.Length - next >= 1 {
        ghost var mid := buffer[..];
        buffer[next] := 0;
        assert buffer[..] == Written(mid, next, [0]);
        next := next + 1;
        return true, next;
      }
    }
    return false, next;
  }

  /** `Append(string)` made atomic: nothing is written unless characters and terminator both fit. */
  method AppendStringAtomic(buffer: array<byte>, index: nat, s: string) returns (ok: bool, next: nat)
    modifies buffer
    ensures ok <==> buffer.Length - index >= |s| + 1
    ensures ok ==> next == index + |s| + 1 && buffer[..] == Written(old(buffer[..]), index, AsciiBytes(s) + [0])
    ensures !ok ==> next == index && buffer[..] == old(buffer[..])
  {
    ok, next := AppendBytes(buffer, index, AsciiBytes(s) + [0]);
  }

  /**
   * A two-character string into a two-byte buffer: `AppendString` reports failure although it
   * wrote both characters and moved the index past them.
   */
  method StringAppendNotAtomic() returns (ok: bool, next: nat, contents: seq<byte>)
    ensures !ok && next == 2 && contents == [0x68, 0x69]
  {
    var buffer := new byte[2];
    ok, next := AppendString(buffer, 0, "hi");
    contents := buffer[..];
  }
}
