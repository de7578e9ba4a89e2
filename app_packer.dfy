/**
 * AR.App/Packer.cs: the application's own unchecked packer. Each overload copies the value's
 * BitConverter bytes to `index` with `Buffer.BlockCopy`, which throws when they do not fit, and
 * then advances the index. There is no `byte` or `sbyte` overload, so C# binds such an argument
 * to the nearest signed wider one, `Append(short)`, which writes two bytes.
 */
module AppPacker {
  import opened Bytes
  import ARPacker

  /** The overload C# binds for an argument of the value's type. */
  function Bound(v: ARPacker.Value): (r: ARPacker.Value)
    ensures !r.ByteValue? && !r.SByteValue?
    ensures ARPacker.Width(r) >= ARPacker.Width(v)
  {
    match v
    case ByteValue(x) => ARPacker.ShortValue(x)
    case SByteValue(x) => ARPacker.ShortValue(x)
    case _ => v
  }

  /** `Buffer.BlockCopy(src, 0, dst, offset, src.Length)`: throws, copying nothing, when the range does not fit. */
  method BlockCopy(src: seq<byte>, dst: array<byte>, offset: int) returns (threw: bool)
    modifies dst
    ensures threw <==> !(0 <= offset && offset + |src| <= dst.Length)
    ensures !threw ==> dst[..] == ARPacker.Written(old(dst[..]), offset, src)
    ensures threw ==> dst[..] == old(dst[..])
  {
    if 0 <= offset && offset + |src| <= dst.Length {
      ARPacker.BlockCopy(src, dst, offset);
      return false;
    }
    return true;
  }

  /** Every `Append` overload: copy the bound overload's bytes, then advance the index past them. */
  method Append(buffer: array<byte>, index: int, v: ARPacker.Value) returns (threw: bool, next: int)
    modifies buffer
    ensures threw <==> !(0 <= index && index + ARPacker.Width(Bound(v)) <= buffer.Length)
    ensures !threw ==>
      && next == index + ARPacker.Width(Bound(v))
      && buffer[..] == ARPacker.Written(old(buffer[..]), index, ARPacker.GetBytes(Bound(v)))
    ensures threw ==> next == index && buffer[..] == old(buffer[..])
  {
    var bytes := ARPacker.GetBytes(Bound(v));
    threw := BlockCopy(bytes, buffer, index);
    next := if threw then index else index + |bytes|;
  }

  /**
   * A `byte` argument is written as a little-endian `short`: the byte, then a zero byte, so
   * every byte appended takes two places.
   */
  lemma ByteWidensToShort(x: byte)
    ensures ARPacker.Width(Bound(ARPacker.ByteValue(x))) == 2
    ensures ARPacker.GetBytes(Bound(ARPacker.ByteValue(x))) == [x, 0]
  {
    Pow256Values();
    assert LittleEndian(x / 256, 1) == [0] + LittleEndian(0, 0);
    assert IntBytes(x, 2) == [x] + LittleEndian(x / 256, 1);
  }
}
