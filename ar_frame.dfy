/**
 * AR.Network/ARFrame.cs: the ARSDK 3 network frame. A 7-byte header (type, target buffer,
 * sequence number, total size as a 4-byte int) followed by the payload.
 */
module ARFrame {
  import opened Wrappers
  import opened Bytes
  import ARPacker

  const HeaderSize: nat := 7

  /** Values of the `DataType` enum. A decoded type byte is cast without a range check. */
  const Ack: byte := 1
  const Data: byte := 2
  const LowLatencyData: byte := 3
  const DataWithAck: byte := 4

  /** A frame; `data` is `None` for a frame whose `Data` property is `null`. */
  datatype Frame = Frame(kind: byte, target: byte, sequence: byte, data: Option<seq<byte>>)

  /** The payload bytes, empty for a `null` payload. */
  function Payload(f: Frame): seq<byte>
  {
    match f.data
    case None => []
    case Some(d) => d
  }

  /** `Size`: header plus payload length. */
  function Size(f: Frame): (n: nat)
    ensures n == HeaderSize + |Payload(f)|
  {
    HeaderSize + (match f.data case None => 0 case Some(d) => |d|)
  }

  /** The frame's size fits the `int` that `Size` returns and `Encode` writes. */
  predicate Encodable(f: Frame)
  {
    Size(f) <= MaxInt32
  }

  /** The seven header bytes: type, target, sequence, `Size` in BitConverter order. */
  function Header(f: Frame): (r: seq<byte>)
    ensures |r| == HeaderSize
  {
    [f.kind, f.target, f.sequence] + IntBytes(Size(f), 4)
  }

  /** The bytes `Encode` produces: the header, then the payload. */
  function Encoding(f: Frame): seq<byte>
    requires Encodable(f)
  {
    Header(f) + Payload(f)
  }

  /** The frame `Decode` returns for `f`'s bytes: the same fields, a `null` payload read back as empty. */
  function Normalized(f: Frame): Frame
  {
    f.(data := Some(Payload(f)))
  }

  /** The first three `ARPacker.Append` calls of `Encode`: type, target and sequence bytes from index 0. */
  method AppendLeadingBytes(buffer: array<byte>, f: Frame) returns (index: nat)
    requires buffer.Length >= HeaderSize
    modifies buffer
    ensures index == 3
    ensures buffer[..] == ARPacker.Written(old(buffer[..]), 0, [f.kind, f.target, f.sequence])
  {
    ghost var start := buffer[..];
    var ok;
    ok, index := ARPacker.Append(buffer, 0, ARPacker.ByteValue(f.kind));
    assert index == 1 && buffer[..] == ARPacker.Written(start, 0, [f.kind]);
    ghost var first := buffer[..];
    ok, index := ARPacker.Append(buffer, index, ARPacker.ByteValue(f.target));
    assert index == 2 && buffer[..] == ARPacker.Written(start, 0, [f.kind, f.target]) by {
      assert buffer[..] == ARPacker.Written(first, 1, [f.target]);
      ARPacker.WrittenTwice(start, 0, [f.kind], [f.target]);
      assert [f.kind] + [f.target] == [f.kind, f.target];
    }
    ghost var second := buffer[..];
    ok, index := ARPacker.Append(buffer, index, ARPacker.ByteValue(f.sequence));
    assert index == 3 && buffer[..] == ARPacker.Written(start, 0, [f.kind, f.target, f.sequence]) by {
      assert buffer[..] == ARPacker.Written(second, 2, [f.sequence]);
      ARPacker.WrittenTwice(start, 0, [f.kind, f.target], [f.sequence]);
      assert [f.kind, f.target] + [f.sequence] == [f.kind, f.target, f.sequence];
    }
  }

  /** The header appends of `Encode`: the three bytes, then `Size` as an `int`. */
  method AppendHeader(buffer: array<byte>, f: Frame) returns (index: nat)
    requires Encodable(f) && buffer.Length >= HeaderSize
    modifies buffer
    ensures index == HeaderSize
    ensures buffer[..] == ARPacker.Written(old(buffer[..]), 0, Header(f))
  {
    ghost var before := buffer[..];
    index := AppendLeadingBytes(buffer, f);
    ghost var written := buffer[..];
    var ok;
    ok, index := ARPacker.Append(buffer, index, ARPacker.IntValue(Size(f)));
    assert index == HeaderSize && buffer[..] == ARPacker.Written(before, 0, Header(f)) by {
      assert buffer[..] == ARPacker.Written(written, 3, IntBytes(Size(f), 4));
      ARPacker.WrittenTwice(before, 0, [f.kind, f.target, f.sequence], IntBytes(Size(f), 4));
    }
  }

  /** `Encode`: a fresh array of `Size` bytes, the header appended, then the payload block-copied. */
  method Encode(f: Frame) returns (r: seq<byte>)
    requires Encodable(f)
    ensures r == Encoding(f)
  {
    var buffer := new byte[Size(f)](_ => 0);
    ghost var zeros := buffer[..];
    var index := AppendHeader(buffer, f);
    if f.data.Some? {
      ghost var headed := buffer[..];
      ARPacker.BlockCopy(f.data.value, buffer, index);
      assert buffer[..] == ARPacker.Written(headed, HeaderSize, Payload(f));
      ARPacker.WrittenTwice(zeros, 0, Header(f), Payload(f));
    }
    r := buffer[..];
  }

  /**
   * `Decode(buffer, ref index)` as written: `None` (and the index unchanged) when fewer than 7
   * bytes remain or the declared size exceeds what remains; otherwise the frame and
   * `index + frameSize`. The declared size is never checked against the header size.
   */
  function Decode(buffer: seq<byte>, index: nat): (r: Option<(Frame, int)>)
    ensures r.None? <==> |buffer| - index < HeaderSize || ToInt32(buffer, index + 3) > |buffer| - index
    ensures r.Some? ==> r.value.1 == index + ToInt32(buffer, index + 3) <= |buffer|
    ensures r.Some? ==> r.value.0.kind == buffer[index] && r.value.0.target == buffer[index + 1] && r.value.0.sequence == buffer[index + 2]
    ensures r.Some? ==> r.value.0.data.Some? && Encodable(r.value.0)
    ensures r.Some? ==> Size(r.value.0) == if r.value.1 - index >= HeaderSize then r.value.1 - index else HeaderSize
  {
    if |buffer| - index >= HeaderSize then
      var frameSize := ToInt32(buffer, 3 + index);
      if |buffer| - index >= frameSize then
        var payload := if frameSize >= HeaderSize then buffer[index + HeaderSize..index + frameSize] else [];
        Some((Frame(buffer[index], buffer[index + 1], buffer[index + 2], Some(payload)), index + frameSize))
      else
        None
    else
      None
  }

  /** `Decode` with the declared size validated: a size below the header size is malformed. */
  function DecodeChecked(buffer: seq<byte>, index: nat): (r: Option<(Frame, int)>)
    ensures r.Some? ==> index + HeaderSize <= r.value.1 <= |buffer|
    ensures r.Some? ==> r.value.1 - index == Size(r.value.0)
    ensures r.Some? ==> Encodable(r.value.0)
  {
    match Decode(buffer, index)
    case Some((f, next)) => if next - index >= HeaderSize then Some((f, next)) else None
    case None => None
  }

  /** The header layout of `Encode`'s output, read back with BitConverter. */
  lemma EncodingLayout(f: Frame)
    requires Encodable(f)
    ensures |Encoding(f)| == Size(f)
    ensures Encoding(f)[0] == f.kind && Encoding(f)[1] == f.target && Encoding(f)[2] == f.sequence
    ensures ToInt32(Encoding(f), 3) == Size(f)
    ensures Encoding(f)[HeaderSize..] == Payload(f)
  {
    Int32RoundTrip(Size(f), [f.kind, f.target, f.sequence], Payload(f));
  }

  /**
   * Round trip, anywhere in a datagram: decoding `f`'s bytes gives back `f` (a `null` payload
   * as empty) and moves the index past exactly `Size(f)` bytes.
   */
  lemma DecodeEncoding(prefix: seq<byte>, f: Frame, suffix: seq<byte>)
    requires Encodable(f)
    ensures Decode(prefix + Encoding(f) + suffix, |prefix|) == Some((Normalized(f), |prefix| + Size(f)))
    ensures DecodeChecked(prefix + Encoding(f) + suffix, |prefix|) == Some((Normalized(f), |prefix| + Size(f)))
  {
    var header := [f.kind, f.target, f.sequence];
    var buffer := prefix + Encoding(f) + suffix;
    assert buffer == prefix + header + IntBytes(Size(f), 4) + (Payload(f) + suffix);
    Int32RoundTrip(Size(f), prefix + header, Payload(f) + suffix);
    assert buffer[|prefix| + HeaderSize..|prefix| + Size(f)] == Payload(f);
  }

  /**
   * The other round trip: a frame decoded with a declared size of at least 7 encodes back to
   * exactly the bytes it was decoded from.
   */
  lemma DecodedReencodes(buffer: seq<byte>, index: nat)
    requires Decode(buffer, index).Some? && Decode(buffer, index).value.1 >= index + HeaderSize
    ensures Encoding(Decode(buffer, index).value.0) == buffer[index..Decode(buffer, index).value.1]
  {
    var (f, next) := Decode(buffer, index).value;
    Int32Bytes(buffer, index + 3);
    assert Size(f) == next - index;
    assert Header(f) == buffer[index..index + HeaderSize];
    assert Payload(f) == buffer[index + HeaderSize..next];
    assert buffer[index..next] == buffer[index..index + HeaderSize] + buffer[index + HeaderSize..next];
  }

  /** The checked decoder agrees with the one as written whenever the declared size is at least 7. */
  lemma DecodeCheckedAgrees(buffer: seq<byte>, index: nat)
    requires Decode(buffer, index).Some? && Decode(buffer, index).value.1 >= index + HeaderSize
    ensures DecodeChecked(buffer, index) == Decode(buffer, index)
  {
  }

  /**
   * As written, a declared size below 7 is accepted: the payload is empty and the index moves by
   * the declared size only, so a size of 0 makes no progress and a negative one moves backwards.
   */
  lemma DecodeUndersized(buffer: seq<byte>, index: nat)
    requires |buffer| - index >= HeaderSize && ToInt32(buffer, 3 + index) < HeaderSize
    ensures Decode(buffer, index).Some?
    ensures Payload(Decode(buffer, index).value.0) == []
    ensures Decode(buffer, index).value.1 == index + ToInt32(buffer, 3 + index)
    ensures Decode(buffer, index).value.1 < index + HeaderSize
    ensures DecodeChecked(buffer, index).None?
  {
  }

  /** A concrete DataWithAck header declaring size 0: decoding it leaves the index where it was. */
  lemma ZeroSizeFrameMakesNoProgress()
    ensures Decode([DataWithAck, 127, 9, 0, 0, 0, 0], 0) == Some((Frame(DataWithAck, 127, 9, Some([])), 0))
  {
    Pow256Values();
    var buffer: seq<byte> := [DataWithAck, 127, 9, 0, 0, 0, 0];
    assert buffer[3..7] == [0, 0, 0, 0];
    assert FromLittleEndian([0, 0, 0, 0]) == 0;
    assert ToInt32(buffer, 3) == 0;
  }
}
