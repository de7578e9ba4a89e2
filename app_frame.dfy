/**
 * AR.App/Frame.cs: the application's own copy of the network frame. It has the same fields and
 * layout as `ARFrame` and its own static sequence-number table (a second `SequenceTable`).
 * `Decode` reports the bytes consumed instead of moving an index, and `Encode`, written over the
 * unchecked `AppPacker`, never returns a buffer.
 */
module AppFrame {
  import opened Wrappers
  import opened Bytes
  import ARPacker
  import AppPacker
  import ARFrame

  /**
   * `Decode(buffer, offset, out consumed)`: `None` and 0 consumed when fewer than 7 bytes remain
   * or the declared size exceeds what remains; otherwise the frame and the declared size, which
   * is never checked against the header size.
   */
  function Decode(buffer: seq<byte>, offset: nat): (Option<ARFrame.Frame>, int)
  {
    if |buffer| - offset >= ARFrame.HeaderSize then
      var frameSize := ToInt32(buffer, 3 + offset);
      if |buffer| - offset >= frameSize then
        var take := if frameSize - ARFrame.HeaderSize > 0 then frameSize - ARFrame.HeaderSize else 0;
        var frame := ARFrame.Frame(buffer[offset], buffer[1 + offset], buffer[2 + offset],
          Some(buffer[offset + ARFrame.HeaderSize..offset + ARFrame.HeaderSize + take]));
        (Some(frame), frameSize)
      else
        (None, 0)
    else
      (None, 0)
  }

  /**
   * The two decoders agree: where `ARFrame.Decode` moves the index to `next`, this one returns
   * the same frame with `next - offset` consumed, and both fail on the same inputs.
   */
  lemma DecodeAgreesWithNetworkFrame(buffer: seq<byte>, offset: nat)
    ensures Decode(buffer, offset).0.Some? <==> ARFrame.Decode(buffer, offset).Some?
    ensures ARFrame.Decode(buffer, offset).Some? ==>
      && Decode(buffer, offset).0.value == ARFrame.Decode(buffer, offset).value.0
      && Decode(buffer, offset).1 == ARFrame.Decode(buffer, offset).value.1 - offset
    ensures ARFrame.Decode(buffer, offset).None? ==> Decode(buffer, offset).1 == 0
  {
    if |buffer| - offset >= ARFrame.HeaderSize {
      var frameSize := ToInt32(buffer, 3 + offset);
      if |buffer| - offset >= frameSize {
        var payload := if frameSize >= ARFrame.HeaderSize then buffer[offset + ARFrame.HeaderSize..offset + frameSize] else [];
        var take := if frameSize - ARFrame.HeaderSize > 0 then frameSize - ARFrame.HeaderSize else 0;
        assert offset + ARFrame.HeaderSize + take == (if frameSize >= ARFrame.HeaderSize then offset + frameSize else offset + ARFrame.HeaderSize);
        assert buffer[offset + ARFrame.HeaderSize..offset + ARFrame.HeaderSize + take] == payload;
      }
    }
  }

  /**
   * A declared size below 7 is accepted with an empty payload, and `consumed` is the declared
   * size: zero or negative for a size of 0 or below.
   */
  lemma DecodeUndersized(buffer: seq<byte>, offset: nat)
    requires |buffer| - offset >= ARFrame.HeaderSize && ToInt32(buffer, 3 + offset) < ARFrame.HeaderSize
    ensures Decode(buffer, offset).0.Some? && ARFrame.Payload(Decode(buffer, offset).0.value) == []
    ensures Decode(buffer, offset).1 == ToInt32(buffer, 3 + offset)
  {
  }

  /**
   * The intended encoding, which `ARFrame.Encode` produces, decodes back to the frame with
   * exactly its size consumed.
   */
  lemma DecodesNetworkEncoding(prefix: seq<byte>, f: ARFrame.Frame, suffix: seq<byte>)
    requires ARFrame.Encodable(f)
    ensures Decode(prefix + ARFrame.Encoding(f) + suffix, |prefix|) == (Some(ARFrame.Normalized(f)), ARFrame.Size(f))
  {
    ARFrame.DecodeEncoding(prefix, f, suffix);
    DecodeAgreesWithNetworkFrame(prefix + ARFrame.Encoding(f) + suffix, |prefix|);
  }

  /**
   * `Encode` as written: a `Size`-byte array, then `Append` of the type, target and sequence
   * bytes and of `Size`, then the payload copied at the index reached. `None` is the exception.
   * The three bytes bind to `Append(short)` and the header takes 10 bytes, so a payload of 3 or
   * more bytes no longer fits after it and a shorter one leaves no room for `Size`: it always throws.
   */
  method Encode(f: ARFrame.Frame) returns (r: Option<seq<byte>>)
    requires ARFrame.Encodable(f)
    ensures r == None
  {
    var buffer := new byte[ARFrame.Size(f)](_ => 0);
    var index := 0;
    var threw;
    threw, index := AppPacker.Append(buffer, index, ARPacker.ByteValue(f.kind));
    if threw { return None; }
    threw, index := AppPacker.Append(buffer, index, ARPacker.ByteValue(f.target));
    if threw { return None; }
    threw, index := AppPacker.Append(buffer, index, ARPacker.ByteValue(f.sequence));
    if threw { return None; }
    assert index == 6;
    threw, index := AppPacker.Append(buffer, index, ARPacker.IntValue(ARFrame.Size(f)));
    if threw { return None; }
    assert index == 10 && |ARFrame.Payload(f)| >= 3;
    if f.data.Some? {
      threw := AppPacker.BlockCopy(f.data.value, buffer, index);
      if threw { return None; }
    }
    // Every path has thrown by now: the array is never returned.
    assert false;
  }
}
