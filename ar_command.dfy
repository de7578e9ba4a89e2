/**
 * AR.Commands/ARCommand.cs: the base of every generated command. A command is its identifier
 * (fixed at construction) plus the fields of its data section. Only the command types the
 * drone classes react to are spelled out; every other generated type is `Other`.
 */
module ARCommand {
  import opened Wrappers
  import opened Bytes
  import opened ARCommandIdentifier

  /** IEEE-754 bit patterns: floating-point values are carried, never computed with. */
  type Float32 = uint32
  type Float64 = uint64

  /** The data section of the command types the drone classes inspect. */
  datatype Body =
    | WifiSignalChanged(rssi: int16)
    | OutdoorSettingsChanged(outdoor: byte)
    | ProductNameChanged(name: string)
    | ProductSerialHighChanged(high: string)
    | ProductSerialLowChanged(low: string)
    | ProductVersionChanged(software: string, hardware: string)
    | CurrentTimeChanged(time: string)
    | CurrentDateChanged(date: string)
    | SpeedChanged(speedX: Float32, speedY: Float32, speedZ: Float32)
    | AltitudeChanged(altitude: Float64)
    | AttitudeChanged(roll: Float32, pitch: Float32, yaw: Float32)
    | MaxAltitudeChanged(current: Float32, min: Float32, max: Float32)
    | MaxDistanceChanged(current: Float32, min: Float32, max: Float32)
    | NoFlyOverMaxDistanceChanged(shouldNotFlyOver: byte)
    | MaxVerticalSpeedChanged(current: Float32, min: Float32, max: Float32)
    | ReturnHomeDelay(delay: uint16)
    | HomeTypeChanged(homeType: int32)
    | AllSettings
    | Other(data: seq<byte>)

  /** A command: `Id` has no setter, so it is the value given to the constructor for good. */
  datatype Command = Command(id: Identifier, body: Body)

  /** `ARCommandSize` of a command type that does not override it. */
  const DefaultCommandSize: nat := 0

  /** The size of the scratch buffer the sessions encode a command into. */
  const CommandBufferSize: nat := 1024

  /** `CmdAllSettings`: feature common (0), class Settings (2), command AllSettings (0). */
  const AllSettingsCommand: Command := Command(Identifier(0, 2, 0), AllSettings)

  /** The default `Encode`: a command without data writes nothing, keeps the index and succeeds. */
  method EncodeData(command: Command, buffer: array<byte>, index: nat) returns (ok: bool, next: nat)
    ensures ok && next == index
  {
    ok, next := true, index;
  }

  /**
   * The command codec the sessions are given: decode a whole payload from index 0, and encode a
   * command into the 1024-byte scratch buffer. Its command registry is not part of this model.
   */
  datatype CodecFunctions = CodecFunctions(decode: seq<byte> -> Option<Command>, encode: Command -> Option<seq<byte>>)

  type Codec = c: CodecFunctions | forall command :: c.encode(command).Some? ==> |c.encode(command).value| <= CommandBufferSize
    witness CodecFunctions(_ => None, _ => None)
}
