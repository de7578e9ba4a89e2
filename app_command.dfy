/**
 * AR.App/Command.cs: the application's own command record, a 4-byte header (feature, class,
 * command id) then the data. As written, `Decode` reads all three ids from the first header
 * byte and `Encode`, over the unchecked `AppPacker`, never returns a buffer. The intended layout
 * is the one `ARCommandIdentifier` reads and writes.
 */
module AppCommand {
  import opened Wrappers
  import opened Bytes
  import ARPacker
  import AppPacker
  import ARCommandIdentifier

  const HeaderSize: nat := 4

  /** A command; `data` is `None` for a `null` `Data`. */
  datatype Command = Command(featureId: byte, classId: byte, commandId: uint16, data: Option<seq<byte>>)

  function Payload(c: Command): seq<byte>
  {
    match c.data
    case None => []
    case Some(d) => d
  }

  /** `Size`: the header plus the data length. */
  function Size(c: Command): (n: nat)
    ensures n == HeaderSize + |Payload(c)|
  {
    HeaderSize + (match c.data case None => 0 case Some(d) => |d|)
  }

  /** The command a decoder is meant to return for `c`'s bytes: a `null` data read back as empty. */
  function Normalized(c: Command): Command
  {
    c.(data := Some(Payload(c)))
  }

  /**
   * `Decode(buffer, offset)` as written: `None` when fewer than 4 bytes remain; otherwise the
   * three ids all from `buffer[offset]` and every byte after the header as data.
   */
  function Decode(buffer: seq<byte>, offset: nat): (r: Option<Command>)
    ensures r.None? <==> |buffer| - offset < HeaderSize
  {
    if |buffer| - offset >= HeaderSize then
      Some(Command(buffer[offset], buffer[offset], buffer[offset] as uint16, Some(buffer[offset + HeaderSize..])))
    else
      None
  }

  /**
   * What a successful decode yields: three equal ids, whatever the second to fourth bytes hold,
   * and a command whose `Size` is the whole rest of the buffer.
   */
  lemma DecodeCollapsesIds(buffer: seq<byte>, offset: nat)
    requires Decode(buffer, offset).Some?
    ensures var c := Decode(buffer, offset).value;
      && c.featureId == buffer[offset] && c.classId == buffer[offset] && c.commandId == buffer[offset] as int
      && Payload(c) == buffer[offset + HeaderSize..]
      && Size(c) == |buffer| - offset
  {
  }

  /** The intended bytes: the identifier's four bytes, then the data. */
  function IntendedEncoding(c: Command): (r: seq<byte>)
    ensures |r| == Size(c)
  {
    ARCommandIdentifier.IdentifierBytes(ARCommandIdentifier.Identifier(c.featureId, c.classId, c.commandId)) + Payload(c)
  }

  /** The intended decoder: the identifier as `ARCommandIdentifier.Decode` reads it, then the rest as data. */
  function IntendedDecode(buffer: seq<byte>, offset: nat): (r: Option<Command>)
    ensures r.None? <==> |buffer| - offset < HeaderSize
  {
    match ARCommandIdentifier.Decode(buffer, offset)
    case None => None
    case Some((id, next)) => Some(Command(id.featureId, id.classId, id.commandId, Some(buffer[next..])))
  }

  /** Corrected round trip: the intended decoder reads back the intended bytes at any offset. */
  lemma IntendedRoundTrip(prefix: seq<byte>, c: Command)
    ensures IntendedDecode(prefix + IntendedEncoding(c), |prefix|) == Some(Normalized(c))
  {
    var id := ARCommandIdentifier.Identifier(c.featureId, c.classId, c.commandId);
    var buffer := prefix + IntendedEncoding(c);
    assert buffer == prefix + [c.featureId, c.classId] + IntBytes(c.commandId, 2) + Payload(c);
    UInt16RoundTrip(c.commandId, prefix + [c.featureId, c.classId], Payload(c));
    assert buffer[|prefix| + HeaderSize..] == Payload(c);
  }

  /**
   * As written, decoding the bytes of command (1, 4, 5) with no data gives (1, 1, 1): the class
   * and command ids are lost.
   */
  lemma DecodeLosesIds()
    ensures var c := Command(1, 4, 5, Some([]));
      Decode(IntendedEncoding(c), 0) == Some(Command(1, 1, 1, Some([]))) && Decode(IntendedEncoding(c), 0) != Some(c)
  {
    Pow256Values();
    var c := Command(1, 4, 5, Some([]));
    assert IntBytes(5, 2) == [5, 0] by {
      assert LittleEndian(0, 1) == [0] + LittleEndian(0, 0);
    }
    assert IntendedEncoding(c) == [1, 4, 5, 0];
  }

  /**
   * `Encode` as written: a `Size`-byte array, then `Append` of the feature, class and command ids,
   * then the data copied at the index reached; `None` is the exception. The two byte ids bind to
   * `Append(short)`, so the ids take 6 bytes: with no data the command id does not fit, and any
   * data no longer fits after them. It always throws.
   */
  method Encode(c: Command) returns (r: Option<seq<byte>>)
    ensures r == None
  {
    var buffer := new byte[Size(c)](_ => 0);
    var index := 0;
    var threw;
    threw, index := AppPacker.Append(buffer, index, ARPacker.ByteValue(c.featureId));
    if threw { return None; }
    threw, index := AppPacker.Append(buffer, index, ARPacker.ByteValue(c.classId));
    if threw { return None; }
    assert index == 4;
    threw, index := AppPacker.Append(buffer, index, ARPacker.UShortValue(c.commandId));
    if threw { return None; }
    assert index == 6 && |Payload(c)| >= 2;
    if c.data.Some? {
      threw := AppPacker.BlockCopy(c.data.value, buffer, index);
      if threw { return None; }
    }
    // Every path has thrown by now: the array is never returned.
    assert false;
  }

  /** `Encode` as intended: the identifier written with `ARCommandIdentifier`'s layout, then the data. */
  method EncodeIntended(c: Command) returns (r: seq<byte>)
    ensures r == IntendedEncoding(c)
    ensures IntendedDecode(r, 0) == Some(Normalized(c))
  {
    var buffer := new byte[Size(c)](_ => 0);
    ghost var zeros := buffer[..];
    var id := ARCommandIdentifier.Identifier(c.featureId, c.classId, c.commandId);
    var ok, index := ARCommandIdentifier.EncodeChecked(id, buffer, 0);
    if c.data.Some? {
      ghost var headed := buffer[..];
      ARPacker.BlockCopy(c.data.value, buffer, index);
      assert buffer[..] == ARPacker.Written(headed, HeaderSize, Payload(c));
      ARPacker.WrittenTwice(zeros, 0, ARCommandIdentifier.IdentifierBytes(id), Payload(c));
    }
    r := buffer[..];
    IntendedRoundTrip([], c);
    assert [] + r == r;
  }
}
