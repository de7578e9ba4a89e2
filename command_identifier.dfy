/**
 * AR.Commands/ARCommandIdentifier.cs: the (feature, class, command) triple that names a command
 * type, four bytes on the wire: feature, class, then the command id as a 2-byte BitConverter value.
 */
module ARCommandIdentifier {
  import opened Wrappers
  import opened Bytes
  import opened Decimal
  import ARPacker

  /** `Size` of every identifier. */
  const IdentifierSize: nat := 4

  datatype Identifier = Identifier(featureId: byte, classId: byte, commandId: uint16)

  /** The four bytes an identifier occupies. */
  function IdentifierBytes(id: Identifier): (r: seq<byte>)
    ensures |r| == IdentifierSize
  {
    [id.featureId, id.classId] + IntBytes(id.commandId, 2)
  }

  /** `Decode(buffer, ref index)`: `None` with the index unchanged when fewer than 4 bytes remain. */
  function Decode(buffer: seq<byte>, index: nat): (r: Option<(Identifier, nat)>)
    ensures r.None? <==> |buffer| - index < IdentifierSize
    ensures r.Some? ==> r.value.1 == index + IdentifierSize
    ensures r.Some? ==> r.value.0.featureId == buffer[index] && r.value.0.classId == buffer[index + 1]
  {
    if |buffer| - index >= IdentifierSize then
      Some((Identifier(buffer[index], buffer[index + 1], ToUInt16(buffer, index + 2)), index + IdentifierSize))
    else
      None
  }

  /**
   * `Encode(buffer, ref index)` as written: `success` starts `true` and is only cleared inside the
   * block guarded by "4 bytes remain", so with no room nothing is written and `true` is returned.
   */
  method Encode(id: Identifier, buffer: array<byte>, index: nat) returns (success: bool, next: nat)
    modifies buffer
    ensures success
    ensures buffer.Length - index >= IdentifierSize ==>
      next == index + IdentifierSize && buffer[..] == ARPacker.Written(old(buffer[..]), index, IdentifierBytes(id))
    ensures buffer.Length - index < IdentifierSize ==> next == index && buffer[..] == old(buffer[..])
  {
    success := true;
    var originalIndex := index;
    next := index;
    if buffer.Length - index >= IdentifierSize {
      ghost var before := buffer[..];
      var ok;
      ok, next := ARPacker.Append(buffer, next, ARPacker.ByteValue(id.featureId));
      assert ok && next == index + 1;
      success := success && ok;
      ghost var afterFeature := buffer[..];
      assert afterFeature == ARPacker.Written(before, index, [id.featureId]);
      ok, next := ARPacker.Append(buffer, next, ARPacker.ByteValue(id.classId));
      assert ok && next == index + 2;
      success := success && ok;
      ghost var afterClass := buffer[..];
      assert afterClass == ARPacker.Written(afterFeature, index + 1, [id.classId]);
      ARPacker.WrittenTwice(before, index, [id.featureId], [id.classId]);
      assert afterClass == ARPacker.Written(before, index, [id.featureId, id.classId]);
      ok, next := ARPacker.Append(buffer, next, ARPacker.UShortValue(id.commandId));
      assert ok && next == index + 4;
      success := success && ok;
      assert buffer[..] == ARPacker.Written(afterClass, index + 2, IntBytes(id.commandId, 2));
      ARPacker.WrittenTwice(before, index, [id.featureId, id.classId], IntBytes(id.commandId, 2));
    }
    if !success {
      next := originalIndex;
    }
  }

  /** `Encode` as evidently intended: `false`, and nothing written, when fewer than 4 bytes remain. */
  method EncodeChecked(id: Identifier, buffer: array<byte>, index: nat) returns (success: bool, next: nat)
    modifies buffer
    ensures success <==> buffer.Length - index >= IdentifierSize
    ensures success ==>
      next == index + IdentifierSize && buffer[..] == ARPacker.Written(old(buffer[..]), index, IdentifierBytes(id))
    ensures !success ==> next == index && buffer[..] == old(buffer[..])
  {
    success, next := ARPacker.AppendBytes(buffer, index, IdentifierBytes(id));
  }

  /** Encoding an identifier into a two-byte buffer: nothing is written, yet `Encode` reports success. */
  method EncodeWithoutRoom() returns (success: bool, next: nat, contents: seq<byte>)
    ensures success && next == 0 && contents == [0, 0]
  {
    var buffer := new byte[2](_ => 0);
    success, next := Encode(Identifier(1, 4, 7), buffer, 0);
    contents := buffer[..];
  }

  /** Round trip: what `Encode` writes with room, `Decode` at the same index reads back. */
  lemma DecodeWritten(buffer: seq<byte>, index: nat, id: Identifier)
    requires index + IdentifierSize <= |buffer|
    ensures Decode(ARPacker.Written(buffer, index, IdentifierBytes(id)), index) == Some((id, index + IdentifierSize))
  {
    var written := ARPacker.Written(buffer, index, IdentifierBytes(id));
    assert written == buffer[..index] + [id.featureId, id.classId] + IntBytes(id.commandId, 2) + buffer[index + 4..];
    UInt16RoundTrip(id.commandId, buffer[..index] + [id.featureId, id.classId], buffer[index + 4..]);
  }

  /** `Equals(ARCommandIdentifier other)`: false for `null`, otherwise all three fields agree. */
  function Equals(id: Identifier, other: Option<Identifier>): (r: bool)
    ensures r <==> other == Some(id)
  {
    match other
    case None => false
    case Some(o) => id.classId == o.classId && id.commandId == o.commandId && id.featureId == o.featureId
  }

  /** The argument of `Equals(object)`: `null`, an identifier, an instance of a subclass, or anything else. */
  datatype Object = Null | IdentifierObject(id: Identifier) | SubclassObject(sub: Identifier) | OtherObject

  /** `Equals(object)`: additionally requires the runtime type to be exactly `ARCommandIdentifier`. */
  function EqualsObject(id: Identifier, obj: Object): (r: bool)
    ensures r <==> obj == IdentifierObject(id)
    ensures obj.IdentifierObject? ==> r == Equals(id, Some(obj.id))
  {
    match obj
    case Null => false
    case IdentifierObject(o) => Equals(id, Some(o))
    case SubclassObject(_) => false
    case OtherObject => false
  }

  /** C# `int` arithmetic in an unchecked context: the result wraps to 32 bits. */
  function Wrap32(x: int): (r: int32)
    ensures (r - x) % 0x1_0000_0000 == 0
  {
    (x + 0x8000_0000) % 0x1_0000_0000 - 0x8000_0000
  }

  /** `GetHashCode`: the field hashes (each the field's own value) folded with wrap-around. */
  function HashCode(id: Identifier): int32
  {
    var h := Wrap32(610168241 * -1521134295 + id.classId);
    var h' := Wrap32(h * -1521134295 + id.commandId);
    Wrap32(h' * -1521134295 + id.featureId)
  }

  /** Identifiers that are `Equals` have the same hash code. */
  lemma EqualsImpliesSameHash(a: Identifier, b: Identifier)
    requires Equals(a, Some(b))
    ensures HashCode(a) == HashCode(b)
  {
  }

  /** `ToString`: "feature:class:command" in decimal. */
  function ToString(id: Identifier): string
  {
    NatToString(id.featureId) + ":" + NatToString(id.classId) + ":" + NatToString(id.commandId)
  }

  /** Position of the first ':' (the length when there is none). */
  function ColonIndex(s: string): (i: nat)
    ensures i <= |s|
  {
    if s == [] || s[0] == ':' then 0 else 1 + ColonIndex(s[1..])
  }

  lemma {:induction false} ColonAfterDigits(digits: string, rest: string)
    requires AllDigits(digits)
    ensures ColonIndex(digits + ":" + rest) == |digits|
  {
    if digits != [] {
      assert (digits + ":" + rest)[1..] == digits[1..] + ":" + rest;
      ColonAfterDigits(digits[1..], rest);
    }
  }

  /** Two "digits:rest" strings are equal only if the digits and the rests are. */
  lemma SplitAtColon(a: string, r: string, b: string, q: string)
    requires AllDigits(a) && AllDigits(b) && a + ":" + r == b + ":" + q
    ensures a == b && r == q
  {
    var s := a + ":" + r;
    ColonAfterDigits(a, r);
    ColonAfterDigits(b, q);
    assert a == s[..|a|] == b;
    assert r == s[|a| + 1..] == q;
  }

  /** `ToString` tells identifiers apart: equal strings come only from equal identifiers. */
  lemma ToStringInjective(a: Identifier, b: Identifier)
    requires ToString(a) == ToString(b)
    ensures a == b
  {
    var fa, ca, ma := NatToString(a.featureId), NatToString(a.classId), NatToString(a.commandId);
    var fb, cb, mb := NatToString(b.featureId), NatToString(b.classId), NatToString(b.commandId);
    assert ToString(a) == fa + ":" + (ca + ":" + ma);
    assert ToString(b) == fb + ":" + (cb + ":" + mb);
    SplitAtColon(fa, ca + ":" + ma, fb, cb + ":" + mb);
    SplitAtColon(ca, ma, cb, mb);
    NatToStringInjective(a.featureId, b.featureId);
    NatToStringInjective(a.classId, b.classId);
    NatToStringInjective(a.commandId, b.commandId);
  }
}
