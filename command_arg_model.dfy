/**
 * AR.Generator/Models/CommandArgModel.cs: what the code generator derives from one XML
 * argument. The constructor is a set of lookups on the argument's type.
 */
module CommandArgModel {
  import opened Wrappers
  import opened Decimal
  import ARPacker
  import StringHelper

  /** The argument types of the XML command description. */
  datatype ArgType = Byte | SByte | UShort | Short | UInt | Int | Enum | ULong | Long | Float | Double | String

  /** `description` is `None` for a `null` description. */
  datatype XmlArg = XmlArg(name: string, description: Option<string>, argType: ArgType)

  /** The get-only properties; `bitConverterMethod` is `None` where the constructor leaves it `null`. */
  datatype ArgModel = ArgModel(
    bitConverterMethod: Option<string>,
    camelCaseName: string,
    classType: string,
    consumedBytes: string,
    isString: bool,
    packClassType: string,
    size: string,
    summary: string,
    usesBitConverter: bool)

  /** The first `switch`: the C# type of the generated property. */
  function ClassType(arg: XmlArg): string
  {
    match arg.argType
    case Byte => "byte"
    case SByte => "sbyte"
    case UShort => "ushort"
    case Short => "short"
    case UInt => "uint"
    case Int => "int"
    case Enum => StringHelper.Camel(arg.name) + "Enum"
    case ULong => "ulong"
    case Long => "long"
    case Float => "float"
    case Double => "double"
    case String => "string"
  }

  /** The second `switch`: the size expression, a literal for fixed widths. */
  function Size(arg: XmlArg): string
  {
    var camel := StringHelper.Camel(arg.name);
    match arg.argType
    case Byte => "1"
    case SByte => "1"
    case UShort => "2"
    case Short => "2"
    case UInt => "4"
    case Int => "4"
    case Float => "4"
    case Enum => "4"
    case ULong => "8"
    case Long => "8"
    case Double => "8"
    case String => "(" + camel + " != null ? " + camel + ".Length : 0)"
  }

  /** The third `switch`: the `BitConverter` reader, for every type but the one-byte ones and strings. */
  function BitConverterMethod(t: ArgType): Option<string>
  {
    match t
    case Byte => None
    case SByte => None
    case String => None
    case UShort => Some("ToUInt16")
    case Short => Some("ToInt16")
    case UInt => Some("ToUInt32")
    case Int => Some("ToInt32")
    case ULong => Some("ToUInt64")
    case Long => Some("ToInt64")
    case Float => Some("ToSingle")
    case Double => Some("ToDouble")
    case Enum => Some("ToInt32")
  }

  /**
   * The constructor; `None` where it throws. The summary is `Description.CleanUpXml()` with no
   * null check, so an argument without a description raises a `NullReferenceException`.
   */
  function Model(arg: XmlArg): Option<ArgModel>
  {
    match arg.description
    case None => None
    case Some(description) =>
      var classType := ClassType(arg);
      var size := Size(arg);
      Some(ArgModel(
        BitConverterMethod(arg.argType),
        StringHelper.Camel(arg.name),
        classType,
        if arg.argType == String then size + " + 1" else size,
        arg.argType == String,
        if arg.argType == Enum then "int" else classType,
        size,
        StringHelper.CleanUpXml(description),
        !(arg.argType == Byte || arg.argType == SByte || arg.argType == String)))
  }

  /* ---- Properties ---- */

  /** The packer overload the generated code calls for a value of the argument's pack type. */
  function PackedValue(t: ArgType): Option<ARPacker.Value>
  {
    match t
    case Byte => Some(ARPacker.ByteValue(0))
    case SByte => Some(ARPacker.SByteValue(0))
    case UShort => Some(ARPacker.UShortValue(0))
    case Short => Some(ARPacker.ShortValue(0))
    case UInt => Some(ARPacker.UIntValue(0))
    case Int => Some(ARPacker.IntValue(0))
    case Enum => Some(ARPacker.IntValue(0))
    case ULong => Some(ARPacker.ULongValue(0))
    case Long => Some(ARPacker.LongValue(0))
    case Float => Some(ARPacker.FloatValue(0))
    case Double => Some(ARPacker.DoubleValue(0))
    case String => None
  }

  /** The decimal forms of the four fixed widths. */
  lemma SmallDecimals()
    ensures NatToString(1) == "1" && NatToString(2) == "2"
    ensures NatToString(4) == "4" && NatToString(8) == "8"
  {
    assert DigitChar(1) == '1' && DigitChar(2) == '2';
    assert DigitChar(4) == '4' && DigitChar(8) == '8';
  }

  /** The decimal width of a fixed-width type, the empty string for a string. */
  function WidthText(t: ArgType): string
  {
    match PackedValue(t)
    case Some(v) => NatToString(ARPacker.Width(v))
    case None => ""
  }

  /** A fixed-width argument's size expression is the decimal width of its type. */
  lemma FixedSize(arg: XmlArg)
    requires arg.argType != String
    ensures Size(arg) == WidthText(arg.argType)
  {
    SizeMatchesPacker(arg);
  }

  /**
   * For every fixed-width type the size the generator writes into the generated code is the
   * decimal form of the number of bytes the packer writes for it, and the bytes consumed are
   * that size.
   */
  lemma SizeMatchesPacker(arg: XmlArg)
    requires arg.argType != String
    ensures PackedValue(arg.argType).Some?
    ensures Size(arg) == NatToString(ARPacker.Width(PackedValue(arg.argType).value))
    ensures Model(arg).Some? ==> Model(arg).value.size == Size(arg) && Model(arg).value.consumedBytes == Size(arg)
  {
    SmallDecimals();
    var w := ARPacker.Width(PackedValue(arg.argType).value);
    match arg.argType {
      case Byte => assert w == 1;
      case SByte => assert w == 1;
      case UShort => assert w == 2;
      case Short => assert w == 2;
      case UInt => assert w == 4;
      case Int => assert w == 4;
      case Enum => assert w == 4;
      case Float => assert w == 4;
      case ULong => assert w == 8;
      case Long => assert w == 8;
      case Double => assert w == 8;
    }
  }

  /** A string consumes its size plus one byte for the terminator. */
  lemma StringConsumesTerminator(arg: XmlArg)
    requires arg.argType == String
    ensures Model(arg).Some? ==> var m := Model(arg).value;
      && m.consumedBytes == m.size + " + 1"
      && m.size == "(" + m.camelCaseName + " != null ? " + m.camelCaseName + ".Length : 0)"
  {
  }

  /**
   * Enums are packed as `int` and named after the argument; every other type is packed as the
   * type of its property.
   */
  lemma PackClassTypeRule(arg: XmlArg)
    ensures Model(arg).Some? ==> var m := Model(arg).value;
      && (arg.argType == Enum ==> m.packClassType == "int" && m.classType == m.camelCaseName + "Enum")
      && (arg.argType != Enum ==> m.packClassType == m.classType)
  {
  }

  /** The .NET reader of each C# primitive type name. */
  function ReaderFor(packClassType: string): Option<string>
  {
    if packClassType == "ushort" then Some("ToUInt16")
    else if packClassType == "short" then Some("ToInt16")
    else if packClassType == "uint" then Some("ToUInt32")
    else if packClassType == "int" then Some("ToInt32")
    else if packClassType == "ulong" then Some("ToUInt64")
    else if packClassType == "long" then Some("ToInt64")
    else if packClassType == "float" then Some("ToSingle")
    else if packClassType == "double" then Some("ToDouble")
    else None
  }

  /**
   * `UsesBitConverter` is false exactly for bytes and strings, and where it is true the reader
   * the generated decoder calls is the one for the type the encoder packs.
   */
  lemma ReaderMatchesPackType(arg: XmlArg)
    ensures Model(arg).Some? ==> var m := Model(arg).value;
      && (m.usesBitConverter <==> !(arg.argType == Byte || arg.argType == SByte || arg.argType == String))
      && (m.usesBitConverter <==> m.bitConverterMethod.Some?)
      && (m.usesBitConverter ==> m.bitConverterMethod == ReaderFor(m.packClassType))
      && (m.isString <==> arg.argType == String)
  {
    match arg.argType {
      case Byte =>
      case SByte =>
      case String =>
      case UShort => assert ReaderFor("ushort") == Some("ToUInt16");
      case Short => assert ReaderFor("short") == Some("ToInt16");
      case UInt => assert ReaderFor("uint") == Some("ToUInt32");
      case Int => assert ReaderFor("int") == Some("ToInt32");
      case Enum => assert ReaderFor("int") == Some("ToInt32");
      case ULong => assert ReaderFor("ulong") == Some("ToUInt64");
      case Long => assert ReaderFor("long") == Some("ToInt64");
      case Float => assert ReaderFor("float") == Some("ToSingle");
      case Double => assert ReaderFor("double") == Some("ToDouble");
    }
  }

  /**
   * The constructor throws exactly when the description is missing. Otherwise the property name
   * holds only letters and digits, and the summary is clean.
   */
  lemma NamesAndSummary(arg: XmlArg)
    ensures Model(arg).None? <==> arg.description.None?
    ensures Model(arg).Some? ==> var m := Model(arg).value;
      && (forall i :: 0 <= i < |m.camelCaseName| ==> StringHelper.IsAlphanumeric(m.camelCaseName[i]))
      && StringHelper.Clean(m.summary)
  {
    StringHelper.CamelContents(arg.name);
    if arg.description.Some? {
      StringHelper.CleanUpXmlIsClean(arg.description.value);
    }
  }
}
