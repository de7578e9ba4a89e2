/**
 * AR.Network/ARDrone.cs: the earlier session class. Its socket handling, `Connect`, `Dispose`,
 * heartbeat bounce and ack reply are the same code as `ARWifiDevice`'s, so `LegacyDrone` keeps
 * its session in a `ARWifiDevice.WifiDevice` and reuses those. What differs: no reliable send and no ack
 * matching, commands decoded by the receive loop update the telemetry fields in place, and the
 * ping loop sends `CmdAllSettings` on every tick.
 */
module NetworkDrone {
  import opened Wrappers
  import opened Bytes
  import opened ARFrame
  import opened SequenceNumbers
  import opened ARCommand
  import ARWifiDevice
  import DeviceDrone

  /**
   * The fields the receive loop assigns: the drone-level ones (the same eight branches as
   * AR.Device/ARDrone.cs) and the `float` speed, altitude and attitude.
   */
  datatype Telemetry = Telemetry(
    info: DeviceDrone.DroneInfo,
    speedNorth: Float32,
    speedEast: Float32,
    speedDown: Float32,
    altitude: Float32,
    roll: Float32,
    pitch: Float32,
    yaw: Float32)

  const InitialTelemetry := Telemetry(DeviceDrone.InitialInfo, 0, 0, 0, 0, 0, 0, 0)

  /** A session's state: the network part and the telemetry. */
  datatype Session = Session(link: ARWifiDevice.Link, telemetry: Telemetry)

  /** The float command kinds, recognised only by this class. */
  predicate FloatCommand(body: Body)
  {
    body.SpeedChanged? || body.AltitudeChanged? || body.AttitudeChanged?
  }

  /**
   * The `else if` chain of `handleIfCommandTypeReceived`; `narrow` is the `(float)` cast of the
   * `double` altitude.
   */
  function Dispatched(t: Telemetry, narrow: Float64 -> Float32, command: Command): Telemetry
  {
    match command.body
    case SpeedChanged(x, y, z) => t.(speedNorth := x, speedEast := y, speedDown := z)
    case AltitudeChanged(altitude) => t.(altitude := narrow(altitude))
    case AttitudeChanged(roll, pitch, yaw) => t.(roll := roll, pitch := pitch, yaw := yaw)
    case _ => t.(info := DeviceDrone.Dispatched(t.info, command))
  }

  /** `handleIfCommandTypeReceived`: payloads on buffers 127 and 126 are decoded from index 0 and dispatched. */
  function CommandDispatched(t: Telemetry, codec: Codec, narrow: Float64 -> Float32, f: Frame): Telemetry
  {
    if f.target == ARWifiDevice.D2cCommandBuffer || f.target == ARWifiDevice.D2cCommandWithAckBuffer then
      match codec.decode(Payload(f))
      case None => t
      case Some(c) => Dispatched(t, narrow, c)
    else
      t
  }

  /** The three handlers in order; a handler that throws ends the loop and the rest do not run. */
  function Handled(s: Session, codec: Codec, narrow: Float64 -> Float32, f: Frame): Session
    requires Encodable(f)
  {
    var a := ARWifiDevice.Heartbeat(s.link, f);
    var b := if a.receiving then ARWifiDevice.AckRequested(a, f) else a;
    Session(b, if b.receiving then CommandDispatched(s.telemetry, codec, narrow, f) else s.telemetry)
  }

  /**
   * The inner loop of `receiveContinuousAsync` from `index`, as in `ARWifiDevice`: `Decode` as
   * written, and a frame that does not move the index forward ends the loop once handled.
   */
  function ReceivedFrom(s: Session, codec: Codec, narrow: Float64 -> Float32, d: seq<byte>, index: nat): Session
    decreases |d| - index
  {
    if !s.link.receiving || index >= |d| then s
    else match Decode(d, index)
      case None => s
      case Some((f, next)) =>
        var h := Handled(s, codec, narrow, f);
        if next <= index then h.(link := h.link.(receiving := false)) else ReceivedFrom(h, codec, narrow, d, next)
  }

  function Received(s: Session, codec: Codec, narrow: Float64 -> Float32, d: seq<byte>): Session
  {
    if s.link.receiving && s.link.open then ReceivedFrom(s, codec, narrow, d, 0)
    else s.(link := s.link.(receiving := false))
  }

  function ReceivedAll(s: Session, codec: Codec, narrow: Float64 -> Float32, ds: seq<seq<byte>>): Session
    decreases |ds|
  {
    if ds == [] then s else ReceivedAll(Received(s, codec, narrow, ds[0]), codec, narrow, ds[1..])
  }

  /** One turn of `pingTask`: our timestamp on buffer 0, then `CmdAllSettings`, every tick. */
  function PingTicked(l: ARWifiDevice.Link, codec: Codec, timestamp: int64): ARWifiDevice.Link
  {
    if !l.pinging then l
    else
      var pinged := ARWifiDevice.Transmitted(l, Data, ARWifiDevice.PingBuffer, IntBytes(timestamp, 8));
      if !ARWifiDevice.CanSend(l) then pinged.(pinging := false) else ARWifiDevice.DataSent(pinged, codec, AllSettingsCommand)
  }

  function PingedAll(l: ARWifiDevice.Link, codec: Codec, timestamps: seq<int64>): ARWifiDevice.Link
    decreases |timestamps|
  {
    if timestamps == [] then l else PingedAll(PingTicked(l, codec, timestamps[0]), codec, timestamps[1..])
  }

  /* ---- Properties ---- */

  /** A command of none of the recognised kinds leaves the telemetry unchanged. */
  lemma UnrecognisedLeavesUnchanged(t: Telemetry, narrow: Float64 -> Float32, command: Command)
    requires !DeviceDrone.Recognised(command.body) && !FloatCommand(command.body)
    ensures Dispatched(t, narrow, command) == t
  {
    DeviceDrone.UnrecognisedLeavesUnchanged(t.info, command);
  }

  /** The float branches copy the message's values and leave the drone-level fields alone. */
  lemma FloatFields(t: Telemetry, narrow: Float64 -> Float32, command: Command)
    requires FloatCommand(command.body)
    ensures Dispatched(t, narrow, command).info == t.info
    ensures command.body.SpeedChanged? ==>
      Dispatched(t, narrow, command) == t.(speedNorth := command.body.speedX, speedEast := command.body.speedY, speedDown := command.body.speedZ)
    ensures command.body.AltitudeChanged? ==> Dispatched(t, narrow, command) == t.(altitude := narrow(command.body.altitude))
    ensures command.body.AttitudeChanged? ==>
      Dispatched(t, narrow, command) == t.(roll := command.body.roll, pitch := command.body.pitch, yaw := command.body.yaw)
  {
  }

  /**
   * Apart from ack matching and the handing on of commands, the earlier session answers a frame
   * exactly as `ARWifiDevice` does: for any frame that is not an Ack on buffer `11 | 0x80`, both
   * send the same datagrams, use the same sequence numbers and stop or go on alike.
   */
  lemma SameRepliesAsWifiDevice(s: Session, codec: Codec, narrow: Float64 -> Float32, f: Frame)
    requires Encodable(f) && !(f.kind == Ack && f.target == ARWifiDevice.WithAckBit(ARWifiDevice.C2dCommandWithAckBuffer))
    ensures var legacy := Handled(s, codec, narrow, f).link;
      var current := ARWifiDevice.Handled(s.link, codec, f);
      legacy.sent == current.sent && legacy.counters == current.counters && legacy.receiving == current.receiving
  {
    var a := ARWifiDevice.Heartbeat(s.link, f);
    var b := if a.receiving then ARWifiDevice.AckRequested(a, f) else a;
    assert ARWifiDevice.AckReceived(b, f) == b;
  }

  /** Handling a frame never touches the pending list or the delivered log: there is no ack matching. */
  lemma {:induction false} NoAckMatching(s: Session, codec: Codec, narrow: Float64 -> Float32, d: seq<byte>, index: nat)
    ensures ReceivedFrom(s, codec, narrow, d, index).link.pending == s.link.pending
    ensures ReceivedFrom(s, codec, narrow, d, index).link.delivered == s.link.delivered
    decreases |d| - index
  {
    if s.link.receiving && index < |d| {
      match Decode(d, index)
      case None =>
      case Some((f, next)) =>
        HandledKeepsAcks(s, codec, narrow, f);
        if next > index {
          NoAckMatching(Handled(s, codec, narrow, f), codec, narrow, d, next);
        }
    }
  }

  lemma HandledKeepsAcks(s: Session, codec: Codec, narrow: Float64 -> Float32, f: Frame)
    requires Encodable(f)
    ensures Handled(s, codec, narrow, f).link.pending == s.link.pending
    ensures Handled(s, codec, narrow, f).link.delivered == s.link.delivered
  {
    var a := ARWifiDevice.Heartbeat(s.link, f);
    assert a.pending == s.link.pending && a.delivered == s.link.delivered;
  }

  /**
   * One tick on a client that can send sends our timestamp on buffer 0 and then, if it encodes,
   * `CmdAllSettings` on buffer 10: there is no countdown.
   */
  lemma PingTickSends(l: ARWifiDevice.Link, codec: Codec, timestamp: int64)
    requires l.pinging && ARWifiDevice.CanSend(l)
    ensures var r := PingTicked(l, codec, timestamp);
      var ping := Encoding(Frame(Data, ARWifiDevice.PingBuffer, Advance(l.counters, ARWifiDevice.PingBuffer)[ARWifiDevice.PingBuffer], Some(IntBytes(timestamp, 8))));
      && r.pinging && ARWifiDevice.CanSend(r)
      && r.sent == l.sent + [ping] + match codec.encode(AllSettingsCommand)
          case None => []
          case Some(data) =>
            var counters := Advance(l.counters, ARWifiDevice.PingBuffer);
            [Encoding(Frame(Data, ARWifiDevice.C2dCommandBuffer, Advance(counters, ARWifiDevice.C2dCommandBuffer)[ARWifiDevice.C2dCommandBuffer], Some(data)))]
  {
  }

  /** So over `n` ticks on a client that can send, `CmdAllSettings` goes out `n` times when it encodes. */
  lemma {:induction false} PingLoopSends(l: ARWifiDevice.Link, codec: Codec, timestamps: seq<int64>)
    requires l.pinging && ARWifiDevice.CanSend(l)
    ensures var r := PingedAll(l, codec, timestamps);
      r.pinging && ARWifiDevice.CanSend(r) && |r.sent| == |l.sent| + |timestamps| * (if codec.encode(AllSettingsCommand).Some? then 2 else 1)
    decreases |timestamps|
  {
    if timestamps != [] {
      PingTickSends(l, codec, timestamps[0]);
      PingLoopSends(PingTicked(l, codec, timestamps[0]), codec, timestamps[1..]);
    }
  }

  /**
   * `ARDrone` (AR.Network): the session it shares with `ARWifiDevice.WifiDevice`, the `(float)` cast, and the
   * telemetry fields.
   */
  class LegacyDrone {
    const link: ARWifiDevice.WifiDevice
    const narrow: Float64 -> Float32
    var info: DeviceDrone.DroneInfo
    var speedNorth: Float32
    var speedEast: Float32
    var speedDown: Float32
    var altitude: Float32
    var roll: Float32
    var pitch: Float32
    var yaw: Float32

    function Readings(): Telemetry
      reads this
    {
      Telemetry(info, speedNorth, speedEast, speedDown, altitude, roll, pitch, yaw)
    }

    function Snapshot(): Session
      reads this, link, link.table
    {
      Session(link.Snapshot(), Readings())
    }

    constructor (link: ARWifiDevice.WifiDevice, narrow: Float64 -> Float32)
      ensures this.link == link && this.narrow == narrow && Readings() == InitialTelemetry
    {
      this.link := link;
      this.narrow := narrow;
      info := DeviceDrone.InitialInfo;
      speedNorth, speedEast, speedDown := 0, 0, 0;
      altitude := 0;
      roll, pitch, yaw := 0, 0, 0;
    }

    method HandleIfCommandTypeReceived(f: Frame)
      modifies this
      ensures Readings() == CommandDispatched(old(Readings()), link.codec, narrow, f)
    {
      if f.target == ARWifiDevice.D2cCommandBuffer || f.target == ARWifiDevice.D2cCommandWithAckBuffer {
        var decoded := link.codec.decode(Payload(f));
        if decoded.Some? {
          var command := decoded.value;
          match command.body {
            case SpeedChanged(x, y, z) =>
              speedNorth, speedEast, speedDown := x, y, z;
            case AltitudeChanged(a) =>
              altitude := narrow(a);
            case AttitudeChanged(r, p, w) =>
              roll, pitch, yaw := r, p, w;
            case _ =>
              info := DeviceDrone.Dispatched(info, command);
          }
        }
      }
    }

    method HandleFrame(f: Frame)
      requires Encodable(f)
      modifies this, link, link.table
      ensures Snapshot() == Handled(old(Snapshot()), link.codec, narrow, f)
    {
      link.HandleIfHeartbeat(f);
      if link.receiving {
        link.HandleIfAckRequested(f);
      }
      if link.receiving {
        HandleIfCommandTypeReceived(f);
      }
    }

    method ProcessDatagram(d: seq<byte>)
      modifies this, link, link.table
      ensures Snapshot() == ReceivedFrom(old(Snapshot()), link.codec, narrow, d, 0)
    {
      var index: nat := 0;
      while link.receiving && index < |d|
        invariant ReceivedFrom(Snapshot(), link.codec, narrow, d, index) == ReceivedFrom(old(Snapshot()), link.codec, narrow, d, 0)
        decreases |d| - index
      {
        match Decode(d, index)
        case None =>
          index := |d|;
        case Some((f, next)) =>
          HandleFrame(f);
          if next <= index {
            link.receiving := false;
            index := |d|;
          } else {
            index := next;
          }
      }
    }

    method ReceiveContinuous(ds: seq<seq<byte>>)
      modifies this, link, link.table
      ensures Snapshot() == ReceivedAll(old(Snapshot()), link.codec, narrow, ds)
    {
      for i := 0 to |ds|
        invariant ReceivedAll(Snapshot(), link.codec, narrow, ds[i..]) == ReceivedAll(old(Snapshot()), link.codec, narrow, ds)
      {
        assert ds[i..][1..] == ds[i + 1..];
        if link.receiving && link.open {
          ProcessDatagram(ds[i]);
        } else {
          link.receiving := false;
        }
      }
    }

    method PingTick(timestamp: int64)
      modifies link, link.table
      ensures link.Snapshot() == PingTicked(old(link.Snapshot()), link.codec, timestamp)
    {
      if link.pinging {
        var ok := link.Transmit(Data, ARWifiDevice.PingBuffer, IntBytes(timestamp, 8));
        if !ok {
          link.pinging := false;
        } else {
          var threw := link.SendDataMessage(AllSettingsCommand);
        }
      }
    }

    method PingTask(timestamps: seq<int64>)
      modifies link, link.table
      ensures link.Snapshot() == PingedAll(old(link.Snapshot()), link.codec, timestamps)
    {
      for i := 0 to |timestamps|
        invariant PingedAll(link.Snapshot(), link.codec, timestamps[i..]) == PingedAll(old(link.Snapshot()), link.codec, timestamps)
      {
        assert timestamps[i..][1..] == timestamps[i + 1..];
        PingTick(timestamps[i]);
      }
    }
  }
}
