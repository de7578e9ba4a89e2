/**
 * AR.Device/ARBebop.cs: the Bebop's flight state. The DotSpatial `Distance`, `Speed` and
 * `Angle` values are kept as the raw IEEE bits of the message field they were made from (the
 * unit conversion is not modelled), `Invalid` until a message sets them.
 */
module DeviceBebop {
  import opened Wrappers
  import opened Bytes
  import opened ARCommandIdentifier
  import opened ARCommand
  import DeviceDrone

  /** A DotSpatial `Distance`, `Speed` or `Angle`: `Invalid`, or made from a message field's bits. */
  datatype Measure = Invalid | FromBits(bits: nat)

  /** `ReturnHomeBehavior`. */
  datatype ReturnHomeBehavior = Unknown | TakeOff | Pilot | FollowMe

  /** `CmdHomeTypeChanged.TypeEnum`: the values in declaration order. */
  const TakeOffType: int := 0
  const PilotType: int := 1
  const FolloweeType: int := 2

  /** A range message's three values: current, max, min. */
  datatype Range = Range(current: Measure, max: Measure, min: Measure)

  const InvalidRange := Range(Invalid, Invalid, Invalid)

  /** The fields the Bebop's `HandleReceivedCommand` assigns; `returnHomeDelay` is in whole seconds. */
  datatype BebopState = BebopState(
    altitude: Measure,
    altitudeCeiling: Range,
    returnHomeDelay: int,
    maxClimbRate: Range,
    maxDistanceEnabled: bool,
    maxDistanceFromHome: Range,
    pitch: Measure,
    returnHomeBehavior: ReturnHomeBehavior,
    roll: Measure,
    speedDown: Measure,
    speedEast: Measure,
    speedNorth: Measure,
    yaw: Measure)

  /** Unit values `Invalid`, the behaviour `Unknown`, the flag false and the delay zero. */
  const InitialBebop := BebopState(Invalid, InvalidRange, 0, InvalidRange, false, InvalidRange, Invalid,
    Unknown, Invalid, Invalid, Invalid, Invalid, Invalid)

  /** The behaviour a home-type value maps to; `None` for a value with no `case`. */
  function HomeBehavior(homeType: int): (r: Option<ReturnHomeBehavior>)
  {
    if homeType == TakeOffType then Some(TakeOff)
    else if homeType == PilotType then Some(Pilot)
    else if homeType == FolloweeType then Some(FollowMe)
    else None
  }

  /** The command kinds the Bebop-level handler recognises. */
  predicate Recognised(body: Body)
  {
    || body.SpeedChanged? || body.AltitudeChanged? || body.AttitudeChanged? || body.MaxAltitudeChanged?
    || body.MaxDistanceChanged? || body.NoFlyOverMaxDistanceChanged? || body.MaxVerticalSpeedChanged?
    || body.ReturnHomeDelay? || body.HomeTypeChanged?
  }

  /** `HandleReceivedCommand`'s own `else if` chain, after the drone-level handler. */
  function Dispatched(s: BebopState, command: Command): BebopState
  {
    match command.body
    case SpeedChanged(x, y, z) => s.(speedNorth := FromBits(x), speedEast := FromBits(y), speedDown := FromBits(z))
    case AltitudeChanged(altitude) => s.(altitude := FromBits(altitude))
    case AttitudeChanged(roll, pitch, yaw) => s.(roll := FromBits(roll), pitch := FromBits(pitch), yaw := FromBits(yaw))
    case MaxAltitudeChanged(current, min, max) => s.(altitudeCeiling := Range(FromBits(current), FromBits(max), FromBits(min)))
    case MaxDistanceChanged(current, min, max) => s.(maxDistanceFromHome := Range(FromBits(current), FromBits(max), FromBits(min)))
    case NoFlyOverMaxDistanceChanged(shouldNotFlyOver) => s.(maxDistanceEnabled := shouldNotFlyOver == 1)
    case MaxVerticalSpeedChanged(current, min, max) => s.(maxClimbRate := Range(FromBits(current), FromBits(max), FromBits(min)))
    case ReturnHomeDelay(delay) => s.(returnHomeDelay := delay)
    case HomeTypeChanged(homeType) =>
      (match HomeBehavior(homeType)
       case Some(b) => s.(returnHomeBehavior := b)
       case None => s)
    case _ => s
  }

  /** The Bebop's whole state: the drone-level fields and its own. */
  datatype Whole = Whole(info: DeviceDrone.DroneInfo, bebop: BebopState)

  /** The drone-level handler first, then the Bebop's own chain. */
  function Handled(w: Whole, command: Command): Whole
  {
    Whole(DeviceDrone.Dispatched(w.info, command), Dispatched(w.bebop, command))
  }

  /** Only the three listed home types change the behaviour, each to its own value. */
  lemma HomeTypeMapping(s: BebopState, id: Identifier, homeType: int32)
    ensures var r := Dispatched(s, Command(id, HomeTypeChanged(homeType)));
      && (homeType == TakeOffType ==> r.returnHomeBehavior == TakeOff)
      && (homeType == PilotType ==> r.returnHomeBehavior == Pilot)
      && (homeType == FolloweeType ==> r.returnHomeBehavior == FollowMe)
      && (homeType !in {TakeOffType, PilotType, FolloweeType} ==> r == s)
      && r == s.(returnHomeBehavior := r.returnHomeBehavior)
  {
  }

  /** No two home types give the same behaviour, and none gives `Unknown`. */
  lemma HomeBehaviorInjective(a: int, b: int)
    ensures HomeBehavior(a).Some? && HomeBehavior(b).Some? && HomeBehavior(a) == HomeBehavior(b) ==> a == b
    ensures HomeBehavior(a) != Some(Unknown)
  {
  }

  /**
   * `MaxDistanceEnabled` is `ShouldNotFlyOver == 1`; a range message sets its current, max and
   * min together and nothing else.
   */
  lemma RangesTogether(s: BebopState, command: Command)
    ensures command.body.NoFlyOverMaxDistanceChanged? ==>
      Dispatched(s, command) == s.(maxDistanceEnabled := command.body.shouldNotFlyOver == 1)
    ensures command.body.MaxAltitudeChanged? ==>
      var r := Dispatched(s, command);
      r == s.(altitudeCeiling := r.altitudeCeiling) && r.altitudeCeiling.current == FromBits(command.body.current)
      && r.altitudeCeiling.max == FromBits(command.body.max) && r.altitudeCeiling.min == FromBits(command.body.min)
    ensures command.body.MaxDistanceChanged? ==>
      var r := Dispatched(s, command);
      r == s.(maxDistanceFromHome := r.maxDistanceFromHome) && r.maxDistanceFromHome.current == FromBits(command.body.current)
      && r.maxDistanceFromHome.max == FromBits(command.body.max) && r.maxDistanceFromHome.min == FromBits(command.body.min)
    ensures command.body.MaxVerticalSpeedChanged? ==>
      var r := Dispatched(s, command);
      r == s.(maxClimbRate := r.maxClimbRate) && r.maxClimbRate.current == FromBits(command.body.current)
      && r.maxClimbRate.max == FromBits(command.body.max) && r.maxClimbRate.min == FromBits(command.body.min)
  {
  }

  /** A command the Bebop's chain does not recognise leaves its fields as they were. */
  lemma UnrecognisedLeavesUnchanged(s: BebopState, command: Command)
    requires !Recognised(command.body)
    ensures Dispatched(s, command) == s
  {
  }

  /**
   * The drone-level and Bebop-level handlers recognise disjoint sets of commands, so each
   * command changes at most one of the two parts of the state.
   */
  lemma HandlersDisjoint(w: Whole, command: Command)
    ensures Handled(w, command).info == w.info || Handled(w, command).bebop == w.bebop
    ensures !DeviceDrone.Recognised(command.body) || !Recognised(command.body)
  {
    if DeviceDrone.Recognised(command.body) {
      UnrecognisedLeavesUnchanged(w.bebop, command);
    } else {
      DeviceDrone.UnrecognisedLeavesUnchanged(w.info, command);
    }
  }

  /** `ARBebop`: the drone it extends, its own fields, and how often `ReturnHomeBehavior` notified. */
  class Bebop {
    const drone: DeviceDrone.Drone
    var altitude: Measure
    var altitudeCeiling: Range
    var lostCommsReturnHomeDelay: int
    var maxClimbRate: Range
    var maxDistanceEnabled: bool
    var maxDistanceFromHome: Range
    var pitch: Measure
    var returnHomeBehavior: ReturnHomeBehavior
    var roll: Measure
    var speedDown: Measure
    var speedEast: Measure
    var speedNorth: Measure
    var yaw: Measure
    var notifications: nat

    function State(): BebopState
      reads this
    {
      BebopState(altitude, altitudeCeiling, lostCommsReturnHomeDelay, maxClimbRate, maxDistanceEnabled,
        maxDistanceFromHome, pitch, returnHomeBehavior, roll, speedDown, speedEast, speedNorth, yaw)
    }

    constructor (drone: DeviceDrone.Drone)
      ensures this.drone == drone && State() == InitialBebop && notifications == 0
    {
      this.drone := drone;
      altitude := Invalid;
      altitudeCeiling := InvalidRange;
      lostCommsReturnHomeDelay := 0;
      maxClimbRate := InvalidRange;
      maxDistanceEnabled := false;
      maxDistanceFromHome := InvalidRange;
      pitch := Invalid;
      returnHomeBehavior := Unknown;
      roll := Invalid;
      speedDown := Invalid;
      speedEast := Invalid;
      speedNorth := Invalid;
      yaw := Invalid;
      notifications := 0;
    }

    /** The `ReturnHomeBehavior` setter: assign and notify only when the value differs. */
    method SetReturnHomeBehavior(value: ReturnHomeBehavior)
      modifies this
      ensures State() == old(State()).(returnHomeBehavior := value)
      ensures notifications == old(notifications) + if value != old(returnHomeBehavior) then 1 else 0
    {
      if value != returnHomeBehavior {
        returnHomeBehavior := value;
        notifications := notifications + 1;
      }
    }

    /** `HandleReceivedCommand`: the drone's handler, then the Bebop's own chain. */
    method HandleReceivedCommand(command: Command)
      modifies this, drone
      ensures Whole(drone.Info(), State()) == Handled(Whole(old(drone.Info()), old(State())), command)
      ensures notifications == old(notifications) +
        if State().returnHomeBehavior != old(State()).returnHomeBehavior then 1 else 0
    {
      drone.HandleReceivedCommand(command);
      HandleOwnCommand(command);
    }

    /** The Bebop's own `else if` chain. */
    method HandleOwnCommand(command: Command)
      modifies this
      ensures State() == Dispatched(old(State()), command)
      ensures notifications == old(notifications) +
        if State().returnHomeBehavior != old(State()).returnHomeBehavior then 1 else 0
    {
      match command.body {
        case SpeedChanged(x, y, z) =>
          speedNorth := FromBits(x);
          speedEast := FromBits(y);
          speedDown := FromBits(z);
        case AltitudeChanged(a) =>
          altitude := FromBits(a);
        case AttitudeChanged(r, p, y) =>
          roll := FromBits(r);
          pitch := FromBits(p);
          yaw := FromBits(y);
        case MaxAltitudeChanged(current, min, max) =>
          altitudeCeiling := Range(FromBits(current), FromBits(max), FromBits(min));
        case MaxDistanceChanged(current, min, max) =>
          maxDistanceFromHome := Range(FromBits(current), FromBits(max), FromBits(min));
        case NoFlyOverMaxDistanceChanged(shouldNotFlyOver) =>
          maxDistanceEnabled := shouldNotFlyOver == 1;
        case MaxVerticalSpeedChanged(current, min, max) =>
          maxClimbRate := Range(FromBits(current), FromBits(max), FromBits(min));
        case ReturnHomeDelay(delay) =>
          lostCommsReturnHomeDelay := delay;
        case HomeTypeChanged(homeType) =>
          HandleHomeType(homeType);
        case _ =>
      }
    }

    /** The `switch` on a home-type message's value; a value with no `case` changes nothing. */
    method HandleHomeType(homeType: int)
      modifies this
      ensures State() == match HomeBehavior(homeType)
        case Some(b) => old(State()).(returnHomeBehavior := b)
        case None => old(State())
      ensures notifications == old(notifications) +
        if State().returnHomeBehavior != old(State()).returnHomeBehavior then 1 else 0
    {
      if homeType == TakeOffType {
        SetReturnHomeBehavior(TakeOff);
      } else if homeType == PilotType {
        SetReturnHomeBehavior(Pilot);
      } else if homeType == FolloweeType {
        SetReturnHomeBehavior(FollowMe);
      }
    }
  }
}
