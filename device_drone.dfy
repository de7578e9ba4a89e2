/**
 * AR.Device/ARDrone.cs: the drone-level state every WiFi drone keeps, updated by
 * `HandleReceivedCommand` from the commands the session decodes. `ARDrone` derives from
 * `ARWifiDevice`; here a `Drone` holds its session in `device`, and the commands the session
 * hands on are the ones it records in `delivered`.
 */
module DeviceDrone {
  import opened Bytes
  import opened ARCommand
  import ARWifiDevice

  /** The fields `HandleReceivedCommand` assigns, with `_serialHigh` and `_serialLow` kept apart. */
  datatype DroneInfo = DroneInfo(
    hardwareVersion: string,
    outdoorWifi: bool,
    productName: string,
    rssi: int16,
    serialHigh: string,
    serialLow: string,
    softwareVersion: string,
    systemDate: string,
    systemTime: string)

  /** Every string field starts empty, the flag false and the signal strength 0. */
  const InitialInfo := DroneInfo("", false, "", 0, "", "", "", "", "")

  /** `SerialNumber`: the two halves concatenated, high first. */
  function SerialNumberOf(info: DroneInfo): string
  {
    info.serialHigh + info.serialLow
  }

  /** The command kinds the drone-level handler recognises. */
  predicate Recognised(body: Body)
  {
    || body.WifiSignalChanged? || body.OutdoorSettingsChanged? || body.ProductNameChanged?
    || body.ProductSerialHighChanged? || body.ProductSerialLowChanged? || body.ProductVersionChanged?
    || body.CurrentTimeChanged? || body.CurrentDateChanged?
  }

  /** `HandleReceivedCommand`'s `else if` chain: one branch per recognised kind, nothing for the rest. */
  function Dispatched(info: DroneInfo, command: Command): DroneInfo
  {
    match command.body
    case WifiSignalChanged(rssi) => info.(rssi := rssi)
    case OutdoorSettingsChanged(outdoor) => info.(outdoorWifi := outdoor == 1)
    case ProductNameChanged(name) => info.(productName := name)
    case ProductSerialHighChanged(high) => info.(serialHigh := high)
    case ProductSerialLowChanged(low) => info.(serialLow := low)
    case ProductVersionChanged(software, hardware) => info.(softwareVersion := software, hardwareVersion := hardware)
    case CurrentTimeChanged(time) => info.(systemTime := time)
    case CurrentDateChanged(date) => info.(systemDate := date)
    case _ => info
  }

  /** The handler applied to a run of commands, in the order the session delivered them. */
  function DispatchedAll(info: DroneInfo, commands: seq<Command>): DroneInfo
    decreases |commands|
  {
    if commands == [] then info else DispatchedAll(Dispatched(info, commands[0]), commands[1..])
  }

  /** The value of the last serial-high message of a run, or `high` when there is none. */
  function LastHigh(high: string, commands: seq<Command>): string
    decreases |commands|
  {
    if commands == [] then high
    else if commands[|commands| - 1].body.ProductSerialHighChanged? then commands[|commands| - 1].body.high
    else LastHigh(high, commands[..|commands| - 1])
  }

  /** The value of the last serial-low message of a run, or `low` when there is none. */
  function LastLow(low: string, commands: seq<Command>): string
    decreases |commands|
  {
    if commands == [] then low
    else if commands[|commands| - 1].body.ProductSerialLowChanged? then commands[|commands| - 1].body.low
    else LastLow(low, commands[..|commands| - 1])
  }

  /** A command the handler does not recognise leaves every field as it was. */
  lemma UnrecognisedLeavesUnchanged(info: DroneInfo, command: Command)
    requires !Recognised(command.body)
    ensures Dispatched(info, command) == info
  {
  }

  /**
   * Each serial message replaces only its own half of the serial number; every other command
   * leaves the serial number alone.
   */
  lemma SerialHalves(info: DroneInfo, command: Command)
    ensures command.body.ProductSerialHighChanged? ==>
      SerialNumberOf(Dispatched(info, command)) == command.body.high + info.serialLow
    ensures command.body.ProductSerialLowChanged? ==>
      SerialNumberOf(Dispatched(info, command)) == info.serialHigh + command.body.low
    ensures !command.body.ProductSerialHighChanged? && !command.body.ProductSerialLowChanged? ==>
      SerialNumberOf(Dispatched(info, command)) == SerialNumberOf(info)
  {
  }

  /**
   * `OutdoorWifi` is true exactly when the last outdoor-settings message said 1; a product-version
   * message sets both versions; the copied fields are copied verbatim.
   */
  lemma FieldsFromMessage(info: DroneInfo, command: Command)
    ensures command.body.OutdoorSettingsChanged? ==> (Dispatched(info, command).outdoorWifi <==> command.body.outdoor == 1)
    ensures !command.body.OutdoorSettingsChanged? ==> Dispatched(info, command).outdoorWifi == info.outdoorWifi
    ensures command.body.ProductVersionChanged? ==>
      Dispatched(info, command).softwareVersion == command.body.software && Dispatched(info, command).hardwareVersion == command.body.hardware
    ensures command.body.WifiSignalChanged? ==> Dispatched(info, command) == info.(rssi := command.body.rssi)
    ensures command.body.ProductNameChanged? ==> Dispatched(info, command) == info.(productName := command.body.name)
    ensures command.body.CurrentTimeChanged? ==> Dispatched(info, command) == info.(systemTime := command.body.time)
    ensures command.body.CurrentDateChanged? ==> Dispatched(info, command) == info.(systemDate := command.body.date)
  {
  }

  /** Every branch assigns from the message alone, so handling the same command twice is the same as once. */
  lemma DispatchIdempotent(info: DroneInfo, command: Command)
    ensures Dispatched(Dispatched(info, command), command) == Dispatched(info, command)
  {
  }

  /** Handling one more command after a run. */
  lemma {:induction false} DispatchedAllSnoc(info: DroneInfo, commands: seq<Command>, command: Command)
    ensures DispatchedAll(info, commands + [command]) == Dispatched(DispatchedAll(info, commands), command)
    decreases |commands|
  {
    if commands != [] {
      assert (commands + [command])[1..] == commands[1..] + [command];
      DispatchedAllSnoc(Dispatched(info, commands[0]), commands[1..], command);
    }
  }

  /**
   * After any run of commands the serial number is the last high half received (or the one
   * before the run) followed by the last low half received (or the one before the run).
   */
  lemma {:induction false} SerialAfterRun(info: DroneInfo, commands: seq<Command>)
    ensures DispatchedAll(info, commands).serialHigh == LastHigh(info.serialHigh, commands)
    ensures DispatchedAll(info, commands).serialLow == LastLow(info.serialLow, commands)
    ensures SerialNumberOf(DispatchedAll(info, commands)) == LastHigh(info.serialHigh, commands) + LastLow(info.serialLow, commands)
    decreases |commands|
  {
    if commands != [] {
      var init := commands[..|commands| - 1];
      var last := commands[|commands| - 1];
      assert commands == init + [last];
      DispatchedAllSnoc(info, init, last);
      SerialAfterRun(info, init);
    }
  }

  /** `ARDrone`: its session and the fields `HandleReceivedCommand` assigns. */
  class Drone {
    const device: ARWifiDevice.WifiDevice
    var hardwareVersion: string
    var outdoorWifi: bool
    var productName: string
    var rssiInDbMilliWatts: int16
    var serialHigh: string
    var serialLow: string
    var softwareVersion: string
    var systemDate: string
    var systemTime: string

    function Info(): DroneInfo
      reads this
    {
      DroneInfo(hardwareVersion, outdoorWifi, productName, rssiInDbMilliWatts, serialHigh, serialLow, softwareVersion, systemDate, systemTime)
    }

    constructor (device: ARWifiDevice.WifiDevice)
      ensures this.device == device && Info() == InitialInfo
    {
      this.device := device;
      hardwareVersion := "";
      outdoorWifi := false;
      productName := "";
      rssiInDbMilliWatts := 0;
      serialHigh := "";
      serialLow := "";
      softwareVersion := "";
      systemDate := "";
      systemTime := "";
    }

    /** `HandleReceivedCommand`; the base handler it awaits first does nothing. */
    method HandleReceivedCommand(command: Command)
      modifies this
      ensures Info() == Dispatched(old(Info()), command)
    {
      match command.body {
        case WifiSignalChanged(rssi) =>
          rssiInDbMilliWatts := rssi;
        case OutdoorSettingsChanged(outdoor) =>
          outdoorWifi := outdoor == 1;
        case ProductNameChanged(name) =>
          productName := name;
        case ProductSerialHighChanged(high) =>
          serialHigh := high;
        case ProductSerialLowChanged(low) =>
          serialLow := low;
        case ProductVersionChanged(software, hardware) =>
          softwareVersion := software;
          hardwareVersion := hardware;
        case CurrentTimeChanged(time) =>
          systemTime := time;
        case CurrentDateChanged(date) =>
          systemDate := date;
        case _ =>
      }
    }

    /** `SerialNumber`. */
    function SerialNumber(): (r: string)
      reads this
      ensures r == SerialNumberOf(Info())
    {
      serialHigh + serialLow
    }
  }
}
