/**
 * AR.Network/ARWifiDevice.cs: the UDP session with one drone. The socket is a log of the
 * datagrams sent, the datagrams received are an input, and a session's mutable state is the
 * shared sequence-number table plus the fields of `WifiDevice`. `Link` is that state as a value;
 * each operation is specified by a function on `Link` and implemented by a method of `WifiDevice`.
 */
module ARWifiDevice {
  import opened Wrappers
  import opened Bytes
  import opened Decimal
  import opened ARFrame
  import opened SequenceNumbers
  import opened ARCommand

  /** Buffer ids: controller-to-drone commands (plain and acknowledged), drone-to-controller commands. */
  const C2dCommandBuffer: byte := 10
  const C2dCommandWithAckBuffer: byte := 11
  const D2cCommandBuffer: byte := 127
  const D2cCommandWithAckBuffer: byte := 126
  /** The drone pings on buffer 0 and the answer goes back on buffer 1; our own pings return on buffer 1. */
  const PingBuffer: byte := 0
  const PongBuffer: byte := 1
  const MaxRetries: int := 3
  /** The ping loop sends `CmdAllSettings` once every this many ticks. */
  const SettingsPeriod: int := 10
  const MaxPort: int := 65535

  /** `MessageAwaitingAckInfo`; `acked` is whether its `AckTask` has completed. */
  datatype PendingAck = PendingAck(target: byte, sequence: byte, remaining: int, acked: bool)

  /** An `IPAddress` object: `handle` is its identity, `text` the address it was parsed from. */
  datatype Address = Address(handle: nat, text: string)
  datatype Endpoint = Endpoint(address: Address, port: int)

  /**
   * The state of a session: the sequence-number table, whether `_client` is a live socket, the
   * datagrams sent, the pending-ack list, the commands handed to `HandleReceivedCommand`, the
   * last timestamp echoed back, whether the receive and ping loops are running, the ping
   * loop's counter, `Address` and `_remoteEndPoint`.
   */
  datatype Link = Link(
    counters: map<int, byte>,
    open: bool,
    sent: seq<seq<byte>>,
    pending: seq<PendingAck>,
    delivered: seq<Command>,
    echo: Option<int64>,
    receiving: bool,
    pinging: bool,
    counter: int,
    address: Option<Address>,
    remote: Option<Endpoint>)

  /** `(byte)(0x80 | target)`: the same low seven bits with the top bit set. */
  function WithAckBit(target: byte): (r: byte)
    ensures 0x80 <= r && r % 0x80 == target % 0x80
  {
    if target >= 0x80 then target else target + 0x80
  }

  /**
   * Whether `SendAsync` goes through: the client is live and `_remoteEndPoint` is set. A send on a
   * disposed client, or to the null endpoint left by a `Connect` that read no reply, throws.
   */
  predicate CanSend(l: Link)
  {
    l.open && l.remote.Some?
  }

  /**
   * Build a frame on `target` with the next sequence number of that buffer, encode it and send
   * it. The sequence number is taken before the send, so it is used up even when the send throws.
   */
  function Transmitted(l: Link, kind: byte, target: byte, data: seq<byte>): Link
    requires HeaderSize + |data| <= MaxInt32
  {
    var counters := Advance(l.counters, target);
    var frame := Frame(kind, target, counters[target], Some(data));
    if CanSend(l) then l.(counters := counters, sent := l.sent + [Encoding(frame)]) else l.(counters := counters)
  }

  /**
   * `handleIfHeartbeat`: a frame on buffer 0 is bounced as a Data frame on buffer 1 with the same
   * payload; a frame on buffer 1 carries one of our timestamps, and `BitConverter.ToInt64` throws
   * (ending the receive loop) when its payload is shorter than 8 bytes.
   */
  function Heartbeat(l: Link, f: Frame): Link
    requires Encodable(f)
  {
    if f.target == PingBuffer then
      Transmitted(l, Data, PongBuffer, Payload(f)).(receiving := l.receiving && CanSend(l))
    else if f.target == PongBuffer then
      if |Payload(f)| < 8 then l.(receiving := false) else l.(echo := Some(ToInt64(Payload(f), 0)))
    else
      l
  }

  /** `handleIfAckRequested`: a DataWithAck frame is answered by an Ack on `0x80 | target` carrying its sequence number. */
  function AckRequested(l: Link, f: Frame): Link
  {
    if f.kind == DataWithAck then
      Transmitted(l, Ack, WithAckBit(f.target), [f.sequence]).(receiving := l.receiving && CanSend(l))
    else
      l
  }

  /** `FirstOrDefault` over the pending list: the first entry for `target` with `sequence`. */
  function FirstMatch(pending: seq<PendingAck>, target: int, sequence: byte): (r: Option<nat>)
    ensures r.Some? ==> r.value < |pending| && pending[r.value].target == target && pending[r.value].sequence == sequence
    ensures r.Some? ==> forall j :: 0 <= j < r.value ==> !(pending[j].target == target && pending[j].sequence == sequence)
    ensures r.None? ==> forall j :: 0 <= j < |pending| ==> !(pending[j].target == target && pending[j].sequence == sequence)
  {
    if pending == [] then None
    else if pending[0].target == target && pending[0].sequence == sequence then Some(0)
    else match FirstMatch(pending[1..], target, sequence)
      case None => None
      case Some(i) => Some(i + 1)
  }

  /**
   * `handleIfAck`: an Ack frame on buffer `11 | 0x80` with a one-byte payload completes the first
   * pending entry for buffer 11 with that sequence number. With no such entry the null result is
   * dereferenced, and an entry already completed makes `SetResult` throw: either ends the receive loop.
   */
  function AckReceived(l: Link, f: Frame): Link
  {
    if f.kind == Ack && f.target == WithAckBit(C2dCommandWithAckBuffer) && |Payload(f)| == 1 then
      match FirstMatch(l.pending, f.target % 0x80, Payload(f)[0])
      case None => l.(receiving := false)
      case Some(i) =>
        if l.pending[i].acked then l.(receiving := false)
        else l.(pending := l.pending[i := l.pending[i].(acked := true)])
    else
      l
  }

  /** `handleIfCommandTypeReceived`: payloads on buffers 127 and 126 are decoded from index 0; a decoded command is handed on. */
  function CommandReceived(l: Link, codec: Codec, f: Frame): Link
  {
    if f.target == D2cCommandBuffer || f.target == D2cCommandWithAckBuffer then
      match codec.decode(Payload(f))
      case None => l
      case Some(c) => l.(delivered := l.delivered + [c])
    else
      l
  }

  /** The four handlers in order; a handler that throws ends the loop and the rest do not run. */
  function Handled(l: Link, codec: Codec, f: Frame): Link
    requires Encodable(f)
  {
    var a := Heartbeat(l, f);
    var b := if a.receiving then AckRequested(a, f) else a;
    var c := if b.receiving then AckReceived(b, f) else b;
    if c.receiving then CommandReceived(c, codec, f) else c
  }

  /** `pending` differs from `before` at most in ack flags turned on. */
  predicate AcksOnly(before: seq<PendingAck>, pending: seq<PendingAck>)
  {
    && |pending| == |before|
    && forall i :: 0 <= i < |before| ==>
        pending[i].target == before[i].target && pending[i].sequence == before[i].sequence
        && pending[i].remaining == before[i].remaining && (before[i].acked ==> pending[i].acked)
  }

  /** Whether the counter of buffer `b` is the same in both tables. */
  predicate SameCounter(before: map<int, byte>, after: map<int, byte>, b: int)
  {
    (b in before <==> b in after) && (b in before ==> before[b] == after[b])
  }

  /**
   * What receiving may change: it only appends to the send log and the delivered commands, only
   * completes pending entries, and leaves the counters of every buffer below 0x80 except buffer 1
   * alone (its replies go to buffer 1 and to buffers `0x80 | target`).
   */
  ghost predicate ReceiveStep(l: Link, r: Link)
  {
    && r.open == l.open && r.pinging == l.pinging && r.counter == l.counter
    && r.address == l.address && r.remote == l.remote
    && l.sent <= r.sent && l.delivered <= r.delivered
    && AcksOnly(l.pending, r.pending)
    && LowCountersKept(l.counters, r.counters)
  }

  /** Every buffer below 0x80 other than buffer 1 keeps its counter. */
  ghost predicate LowCountersKept(before: map<int, byte>, after: map<int, byte>)
  {
    forall b: int :: b < 0x80 && b != PongBuffer ==> SameCounter(before, after, b)
  }

  lemma LowCountersTransitive(a: map<int, byte>, b: map<int, byte>, c: map<int, byte>)
    requires LowCountersKept(a, b) && LowCountersKept(b, c)
    ensures LowCountersKept(a, c)
  {
    forall x: int | x < 0x80 && x != PongBuffer
      ensures SameCounter(a, c, x)
    {
      assert SameCounter(a, b, x) && SameCounter(b, c, x);
    }
  }

  lemma ReceiveStepTransitive(a: Link, b: Link, c: Link)
    requires ReceiveStep(a, b) && ReceiveStep(b, c)
    ensures ReceiveStep(a, c)
  {
    LowCountersTransitive(a.counters, b.counters, c.counters);
  }

  /** Each handler is a receive step. */
  lemma HeartbeatIsReceiveStep(l: Link, f: Frame)
    requires Encodable(f)
    ensures ReceiveStep(l, Heartbeat(l, f))
  {
    if f.target == PingBuffer {
      var r := Heartbeat(l, f);
      forall b: int | b < 0x80 && b != PongBuffer
        ensures SameCounter(l.counters, r.counters, b)
      {
      }
      assert LowCountersKept(l.counters, r.counters);
    }
  }

  lemma AckRequestedIsReceiveStep(l: Link, f: Frame)
    ensures ReceiveStep(l, AckRequested(l, f))
  {
    if f.kind == DataWithAck {
      var r := AckRequested(l, f);
      var key := WithAckBit(f.target);
      forall b: int | b < 0x80 && b != PongBuffer
        ensures SameCounter(l.counters, r.counters, b)
      {
        assert b != key;
      }
      assert LowCountersKept(l.counters, r.counters);
    }
  }

  lemma AckReceivedIsReceiveStep(l: Link, f: Frame)
    ensures ReceiveStep(l, AckReceived(l, f))
  {
  }

  /** Handling one frame is a receive step. */
  lemma HandledIsReceiveStep(l: Link, codec: Codec, f: Frame)
    requires Encodable(f)
    ensures ReceiveStep(l, Handled(l, codec, f))
  {
    var a := Heartbeat(l, f);
    HeartbeatIsReceiveStep(l, f);
    var b := if a.receiving then AckRequested(a, f) else a;
    AckRequestedIsReceiveStep(a, f);
    ReceiveStepTransitive(l, a, b);
    var c := if b.receiving then AckReceived(b, f) else b;
    AckReceivedIsReceiveStep(b, f);
    ReceiveStepTransitive(l, b, c);
    var d := if c.receiving then CommandReceived(c, codec, f) else c;
    assert ReceiveStep(c, d);
    ReceiveStepTransitive(l, c, d);
  }

  /**
   * The inner loop of `receiveContinuousAsync` from `index`: decode a frame with `Decode` as
   * written, handle it and go on after it; stop at the end of the datagram, at a frame that does
   * not decode, or once a handler has thrown. A frame declaring a size of 0 or less does not move
   * the index forward: it is handled once and the loop ends there.
   */
  function ReceivedFrom(l: Link, codec: Codec, d: seq<byte>, index: nat): Link
    decreases |d| - index
  {
    if !l.receiving || index >= |d| then l
    else match Decode(d, index)
      case None => l
      case Some((f, next)) =>
        var h := Handled(l, codec, f);
        if next <= index then h.(receiving := false) else ReceivedFrom(h, codec, d, next)
  }

  /** One turn of the outer loop: receiving on a closed client throws and ends the loop. */
  function Received(l: Link, codec: Codec, d: seq<byte>): Link
  {
    if l.receiving && l.open then ReceivedFrom(l, codec, d, 0) else l.(receiving := false)
  }

  /** The outer loop over the datagrams that arrive, in order. */
  function ReceivedAll(l: Link, codec: Codec, ds: seq<seq<byte>>): Link
    decreases |ds|
  {
    if ds == [] then l else ReceivedAll(Received(l, codec, ds[0]), codec, ds[1..])
  }

  /** Processing a datagram only appends, only completes pending entries and keeps the low counters. */
  lemma {:induction false} ReceivedFromIsReceiveStep(l: Link, codec: Codec, d: seq<byte>, index: nat)
    ensures ReceiveStep(l, ReceivedFrom(l, codec, d, index))
    decreases |d| - index
  {
    if l.receiving && index < |d| {
      match Decode(d, index)
      case None =>
      case Some((f, next)) =>
        var h := Handled(l, codec, f);
        HandledIsReceiveStep(l, codec, f);
        if next > index {
          ReceivedFromIsReceiveStep(h, codec, d, next);
          ReceiveStepTransitive(l, h, ReceivedFrom(h, codec, d, next));
        }
    }
  }

  /** So does any run of the outer loop on an open client. */
  lemma {:induction false} ReceivedAllIsReceiveStep(l: Link, codec: Codec, ds: seq<seq<byte>>)
    requires l.open
    ensures ReceiveStep(l, ReceivedAll(l, codec, ds))
    decreases |ds|
  {
    if ds != [] {
      var m := Received(l, codec, ds[0]);
      if l.receiving {
        ReceivedFromIsReceiveStep(l, codec, ds[0], 0);
      }
      ReceivedAllIsReceiveStep(m, codec, ds[1..]);
      ReceiveStepTransitive(l, m, ReceivedAll(m, codec, ds[1..]));
    }
  }

  /** The datagrams that arrive during the wait after the `attempt`-th transmission; none past the end of `incoming`. */
  function Arrivals(incoming: seq<seq<seq<byte>>>, attempt: nat): seq<seq<byte>>
  {
    if attempt < |incoming| then incoming[attempt] else []
  }

  /** The outcome of the retry loop: whether a send threw, how many times the frame went out, the state after. */
  datatype Attempts = Attempts(threw: bool, transmissions: nat, link: Link)

  /**
   * The retry loop of `SendDataWithAckMessage` for the pending entry at `entry`, `attempt`
   * transmissions in: while retries remain, count one down and send the frame (a send that
   * cannot go out throws), then let the receive loop handle what arrives during the 500 ms wait (`incoming`
   * holds, per attempt, the datagrams that arrive in time); stop once the entry is acked.
   */
  function Retry(l: Link, codec: Codec, entry: nat, encoded: seq<byte>, incoming: seq<seq<seq<byte>>>, attempt: nat): (r: Attempts)
    requires entry < |l.pending|
    ensures |r.link.pending| == |l.pending| && r.transmissions >= attempt
    ensures r.link.open == l.open && r.link.remote == l.remote && l.sent <= r.link.sent
    ensures r.threw <==> !CanSend(l) && l.pending[entry].remaining > 0
    ensures r.link.pending[entry].remaining == l.pending[entry].remaining - (r.transmissions - attempt) - (if r.threw then 1 else 0)
    ensures r.transmissions - attempt <= if l.pending[entry].remaining > 0 then l.pending[entry].remaining else 0
    ensures !r.threw && !r.link.pending[entry].acked ==> r.link.pending[entry].remaining <= 0
    ensures LowCountersKept(l.counters, r.link.counters)
    decreases l.pending[entry].remaining
  {
    var info := l.pending[entry];
    if info.remaining <= 0 then Attempts(false, attempt, l)
    else
      var counted := l.(pending := l.pending[entry := info.(remaining := info.remaining - 1)]);
      if !CanSend(counted) then Attempts(true, attempt, counted)
      else
        var arrivals := Arrivals(incoming, attempt);
        var transmitted := counted.(sent := counted.sent + [encoded]);
        var waited := ReceivedAll(transmitted, codec, arrivals);
        ReceivedAllIsReceiveStep(transmitted, codec, arrivals);
        if waited.pending[entry].acked then Attempts(false, attempt + 1, waited)
        else
          var r := Retry(waited, codec, entry, encoded, incoming, attempt + 1);
          LowCountersTransitive(l.counters, waited.counters, r.link.counters);
          r
  }

  /** The retry loop ends at once when no retries remain, and throws when the send cannot go out. */
  lemma RetryStops(l: Link, codec: Codec, entry: nat, encoded: seq<byte>, incoming: seq<seq<seq<byte>>>, attempt: nat)
    requires entry < |l.pending| && (l.pending[entry].remaining <= 0 || !CanSend(l))
    ensures Retry(l, codec, entry, encoded, incoming, attempt) ==
      if l.pending[entry].remaining <= 0 then Attempts(false, attempt, l)
      else Attempts(true, attempt, l.(pending := l.pending[entry := l.pending[entry].(remaining := l.pending[entry].remaining - 1)]))
  {
  }

  /** One transmission of the retry loop when the send goes out, with `waited` the state after the wait. */
  lemma RetryOnce(l: Link, codec: Codec, entry: nat, encoded: seq<byte>, incoming: seq<seq<seq<byte>>>, attempt: nat, waited: Link)
    requires entry < |l.pending| && l.pending[entry].remaining > 0 && CanSend(l)
    requires waited == ReceivedAll(
      l.(pending := l.pending[entry := l.pending[entry].(remaining := l.pending[entry].remaining - 1)], sent := l.sent + [encoded]),
      codec, Arrivals(incoming, attempt))
    ensures entry < |waited.pending| && waited.pending[entry].remaining == l.pending[entry].remaining - 1
    ensures Retry(l, codec, entry, encoded, incoming, attempt) ==
      if waited.pending[entry].acked then Attempts(false, attempt + 1, waited)
      else Retry(waited, codec, entry, encoded, incoming, attempt + 1)
  {
    var counted := l.(pending := l.pending[entry := l.pending[entry].(remaining := l.pending[entry].remaining - 1)]);
    ReceivedAllIsReceiveStep(counted.(sent := l.sent + [encoded]), codec, Arrivals(incoming, attempt));
  }

  /** The result of `SendDataWithAckMessage`, the number of transmissions, and the state after. */
  datatype Delivery = Delivery(acked: bool, transmissions: nat, link: Link)

  /** The DataWithAck frame that carries an encoded command with sequence number `sequence`. */
  function ReliableFrame(sequence: byte, data: seq<byte>): Frame
  {
    Frame(DataWithAck, C2dCommandWithAckBuffer, sequence, Some(data))
  }

  /**
   * `SendDataWithAckMessage`: if the codec encodes the command, take one sequence number on
   * buffer 11, add a pending entry with 3 retries, run the retry loop on the one encoded frame,
   * then remove the entry and report whether it was acked. When a send throws the entry stays
   * in the list and the result is false.
   */
  function Reliable(l: Link, codec: Codec, command: Command, incoming: seq<seq<seq<byte>>>): Delivery
  {
    match codec.encode(command)
    case None => Delivery(false, 0, l)
    case Some(data) =>
      var counters := Advance(l.counters, C2dCommandWithAckBuffer);
      var sequence := counters[C2dCommandWithAckBuffer];
      var entry := |l.pending|;
      var start := l.(counters := counters, pending := l.pending + [PendingAck(C2dCommandWithAckBuffer, sequence, MaxRetries, false)]);
      var r := Retry(start, codec, entry, Encoding(ReliableFrame(sequence, data)), incoming, 0);
      if r.threw then Delivery(false, r.transmissions, r.link)
      else Delivery(r.link.pending[entry].acked, r.transmissions, r.link.(pending := r.link.pending[..entry] + r.link.pending[entry + 1..]))
  }

  /** `SendDataMessage`: an encoded command goes out once as a Data frame on buffer 10. */
  function DataSent(l: Link, codec: Codec, command: Command): Link
  {
    match codec.encode(command)
    case None => l
    case Some(data) => Transmitted(l, Data, C2dCommandBuffer, data)
  }

  /** Whether `SendDataMessage` throws: the command encodes but the send cannot go out. */
  predicate DataSendThrows(l: Link, codec: Codec, command: Command)
  {
    codec.encode(command).Some? && !CanSend(l)
  }

  /** The ping loop's counter after one tick: counted down, and reset to 10 when it reaches 0. */
  function NextCounter(counter: int): int
  {
    if counter - 1 <= 0 then SettingsPeriod else counter - 1
  }

  /**
   * One turn of `pingTask`: send our timestamp as a Data frame on buffer 0, count down, and when
   * the counter reaches 0 reset it and send `CmdAllSettings`. A send that throws ends the loop.
   */
  function PingTicked(l: Link, codec: Codec, timestamp: int64): Link
  {
    if !l.pinging then l
    else
      var pinged := Transmitted(l, Data, PingBuffer, IntBytes(timestamp, 8));
      if !CanSend(l) then pinged.(pinging := false)
      else if l.counter - 1 <= 0 then DataSent(pinged.(counter := SettingsPeriod), codec, AllSettingsCommand)
      else pinged.(counter := l.counter - 1)
  }

  /** The ping loop over the timestamps of successive ticks. */
  function PingedAll(l: Link, codec: Codec, timestamps: seq<int64>): Link
    decreases |timestamps|
  {
    if timestamps == [] then l else PingedAll(PingTicked(l, codec, timestamps[0]), codec, timestamps[1..])
  }

  /** The exceptions `Connect` catches. */
  datatype CaughtKind = ArgumentNull | ArgumentOutOfRange | SocketError | JsonError

  /**
   * How the TCP handshake went: nothing read, a parsed reply, a caught exception with its
   * message, or an exception `Connect` does not catch.
   */
  datatype Handshake = NothingRead | Replied(status: int32, c2dPort: int32) | Caught(kind: CaughtKind, message: string) | Uncaught

  /**
   * The string `Connect` returns; `None` when the exception escapes. A reply with status 0 builds
   * the remote endpoint, which throws `ArgumentOutOfRangeException` (message `endpointMessage`)
   * for a port outside 0..65535.
   */
  function ConnectError(h: Handshake, endpointMessage: string): Option<string>
  {
    match h
    case NothingRead => Some("")
    case Replied(status, port) =>
      if status != 0 then Some("Status error: " + IntToString(status))
      else if 0 <= port <= MaxPort then Some("")
      else Some("Unable to connect with drone: " + endpointMessage)
    case Caught(kind, message) =>
      if kind == JsonError then Some("JSON error: " + message) else Some("Unable to connect with drone: " + message)
    case Uncaught => None
  }

  /**
   * `Connect`: a new client is opened; on success the address is set and both loops start (the
   * remote endpoint only when a reply was read); on an error the client is disposed and nulled.
   */
  function Connected(l: Link, addr: Address, h: Handshake, endpointMessage: string): Link
  {
    match ConnectError(h, endpointMessage)
    case None => l.(open := true)
    case Some(e) =>
      if e == "" then
        l.(open := true, address := Some(addr), receiving := true, pinging := true, counter := 0,
           remote := if h.Replied? then Some(Endpoint(addr, h.c2dPort)) else l.remote)
      else
        l.(open := false, receiving := false, pinging := false)
  }

  /** `Dispose`: the client is disposed and the loops are cancelled. */
  function Disposed(l: Link): Link
  {
    l.(open := false, receiving := false, pinging := false)
  }

  /* ---- Properties of the receive path ---- */

  /** The bytes of several frames sent back to back in one datagram. */
  function Concat(fs: seq<Frame>): seq<byte>
    requires forall i :: 0 <= i < |fs| ==> Encodable(fs[i])
  {
    if fs == [] then [] else Encoding(fs[0]) + Concat(fs[1..])
  }

  /** Handling frames one after another, until a handler throws. */
  function HandledAll(l: Link, codec: Codec, fs: seq<Frame>): Link
    requires forall i :: 0 <= i < |fs| ==> Encodable(fs[i])
    decreases |fs|
  {
    if fs == [] || !l.receiving then l else HandledAll(Handled(l, codec, Normalized(fs[0])), codec, fs[1..])
  }

  /** One turn of the inner loop on a frame that decodes. */
  lemma ReceivedFromUnfold(l: Link, codec: Codec, d: seq<byte>, index: nat, f: Frame, next: int)
    requires l.receiving && index < |d| && Decode(d, index) == Some((f, next)) && next > index
    ensures ReceivedFrom(l, codec, d, index) == ReceivedFrom(Handled(l, codec, f), codec, d, next)
  {
  }

  /** Concatenation regrouped, stated on plain operands so that the solver does not look inside them. */
  lemma Associative(a: seq<byte>, b: seq<byte>, c: seq<byte>)
    ensures a + (b + c) == a + b + c
  {
  }

  /** `DecodeEncoding` for a datagram already known to be laid out as prefix, frame, suffix. */
  lemma DecodeFrameAt(prefix: seq<byte>, f: Frame, suffix: seq<byte>, d: seq<byte>)
    requires Encodable(f) && d == prefix + Encoding(f) + suffix
    ensures Decode(d, |prefix|) == Some((Normalized(f), |prefix| + Size(f)))
  {
    DecodeEncoding(prefix, f, suffix);
  }

  /** A run of frames starting at `index` of `d`: its first frame decodes, and the rest of the run follows it. */
  lemma {:induction false} FrameAt(d: seq<byte>, index: nat, fs: seq<Frame>)
    requires fs != [] && forall i :: 0 <= i < |fs| ==> Encodable(fs[i])
    requires index <= |d| && d[index..] == Concat(fs)
    ensures index < index + Size(fs[0]) <= |d|
    ensures Decode(d, index) == Some((Normalized(fs[0]), index + Size(fs[0])))
    ensures d[index + Size(fs[0])..] == Concat(fs[1..])
  {
    var f := fs[0];
    var rest := Concat(fs[1..]);
    assert d[index..] == Encoding(f) + rest;
    assert |Encoding(f)| == Size(f) by {
      EncodingLayout(f);
    }
    assert d == d[..index] + Encoding(f) + rest by {
      assert d == d[..index] + d[index..];
      Associative(d[..index], Encoding(f), rest);
    }
    DecodeFrameAt(d[..index], f, rest, d);
    assert d[index + Size(f)..] == d[index..][Size(f)..];
  }

  /** One turn of `HandledAll`; the frames after the first are encodable too. */
  lemma HandledAllUnfold(l: Link, codec: Codec, fs: seq<Frame>)
    requires fs != [] && l.receiving && forall i :: 0 <= i < |fs| ==> Encodable(fs[i])
    ensures forall i :: 0 <= i < |fs[1..]| ==> Encodable(fs[1..][i])
    ensures HandledAll(l, codec, fs) == HandledAll(Handled(l, codec, Normalized(fs[0])), codec, fs[1..])
  {
    assert forall i :: 0 <= i < |fs[1..]| ==> fs[1..][i] == fs[i + 1];
  }

  /** The inner loop from `index` over a datagram whose bytes from `index` on are a run of frames. */
  lemma {:induction false} SplitFramesAt(l: Link, codec: Codec, d: seq<byte>, index: nat, fs: seq<Frame>)
    requires forall i :: 0 <= i < |fs| ==> Encodable(fs[i])
    requires index <= |d| && d[index..] == Concat(fs)
    ensures ReceivedFrom(l, codec, d, index) == HandledAll(l, codec, fs)
    decreases |fs|
  {
    if fs == [] {
      assert |d[index..]| == 0;
    } else if l.receiving {
      var next := index + Size(fs[0]);
      FrameAt(d, index, fs);
      ReceivedFromUnfold(l, codec, d, index, Normalized(fs[0]), next);
      HandledAllUnfold(l, codec, fs);
      SplitFramesAt(Handled(l, codec, Normalized(fs[0])), codec, d, next, fs[1..]);
    }
  }

  /**
   * The frame-splitting loop, wherever in the datagram it starts: a run of encoded frames is
   * handled frame by frame, in order, each exactly as it was encoded (a null payload as empty).
   */
  lemma ReceiveSplitsFrames(l: Link, codec: Codec, prefix: seq<byte>, fs: seq<Frame>)
    requires forall i :: 0 <= i < |fs| ==> Encodable(fs[i])
    ensures ReceivedFrom(l, codec, prefix + Concat(fs), |prefix|) == HandledAll(l, codec, fs)
  {
    assert (prefix + Concat(fs))[|prefix|..] == Concat(fs);
    SplitFramesAt(l, codec, prefix + Concat(fs), |prefix|, fs);
  }

  /** Once a handler has thrown, later datagrams are not looked at. */
  lemma {:induction false} StoppedStaysStopped(l: Link, codec: Codec, ds: seq<seq<byte>>)
    requires !l.receiving
    ensures ReceivedAll(l, codec, ds) == l
    decreases |ds|
  {
    if ds != [] {
      assert Received(l, codec, ds[0]) == l;
      StoppedStaysStopped(l, codec, ds[1..]);
    }
  }

  /** The Ack the drone sends for our frame with sequence number `acked` on buffer 11. */
  function AckFrame(sequence: byte, acked: byte): Frame
  {
    Frame(Ack, WithAckBit(C2dCommandWithAckBuffer), sequence, Some([acked]))
  }

  /** A datagram holding one Ack for buffer 11 is handled by the Ack handler alone. */
  lemma AckDatagram(l: Link, codec: Codec, sequence: byte, acked: byte)
    requires l.receiving
    ensures ReceivedFrom(l, codec, Encoding(AckFrame(sequence, acked)), 0) == AckReceived(l, AckFrame(sequence, acked))
  {
    var f := AckFrame(sequence, acked);
    ReceiveSplitsFrames(l, codec, [], [f]);
    assert [] + Concat([f]) == Encoding(f);
    assert Normalized(f) == f;
    assert Heartbeat(l, f) == l && AckRequested(l, f) == l;
    assert HandledAll(l, codec, [f]) == HandledAll(Handled(l, codec, f), codec, []);
  }

  /**
   * A datagram holding an Ack for buffer 11 completes the first pending entry for buffer 11
   * with the acknowledged sequence number, if it is not yet completed, and changes nothing else.
   */
  lemma AckCompletesFirstMatch(l: Link, codec: Codec, sequence: byte, acked: byte, i: nat)
    requires l.receiving && FirstMatch(l.pending, C2dCommandWithAckBuffer, acked) == Some(i) && !l.pending[i].acked
    ensures ReceivedFrom(l, codec, Encoding(AckFrame(sequence, acked)), 0) == l.(pending := l.pending[i := l.pending[i].(acked := true)])
  {
    AckDatagram(l, codec, sequence, acked);
  }

  /** An Ack that matches no pending entry, or one already completed, ends the receive loop. */
  lemma UnmatchedAckStopsReceiving(l: Link, codec: Codec, sequence: byte, acked: byte)
    requires l.receiving
    requires match FirstMatch(l.pending, C2dCommandWithAckBuffer, acked)
      case None => true
      case Some(i) => l.pending[i].acked
    ensures !ReceivedFrom(l, codec, Encoding(AckFrame(sequence, acked)), 0).receiving
    ensures ReceivedFrom(l, codec, Encoding(AckFrame(sequence, acked)), 0).pending == l.pending
  {
    AckDatagram(l, codec, sequence, acked);
  }

  /** Everything after the heartbeat handler is a receive step. */
  lemma AfterHeartbeat(l: Link, codec: Codec, f: Frame)
    requires Encodable(f)
    ensures ReceiveStep(Heartbeat(l, f), Handled(l, codec, f))
  {
    var a := Heartbeat(l, f);
    var b := if a.receiving then AckRequested(a, f) else a;
    AckRequestedIsReceiveStep(a, f);
    var c := if b.receiving then AckReceived(b, f) else b;
    AckReceivedIsReceiveStep(b, f);
    ReceiveStepTransitive(a, b, c);
    var d := if c.receiving then CommandReceived(c, codec, f) else c;
    assert ReceiveStep(c, d);
    ReceiveStepTransitive(a, c, d);
  }

  /**
   * A frame on buffer 0 is bounced first: the next datagram sent is a Data frame on buffer 1
   * with the next sequence number of buffer 1 and the same payload.
   */
  lemma HeartbeatBounced(l: Link, codec: Codec, f: Frame)
    requires l.receiving && CanSend(l) && Encodable(f) && f.target == PingBuffer
    ensures |Handled(l, codec, f).sent| > |l.sent|
    ensures Handled(l, codec, f).sent[|l.sent|] ==
      Encoding(Frame(Data, PongBuffer, Advance(l.counters, PongBuffer)[PongBuffer], Some(Payload(f))))
  {
    var a := Heartbeat(l, f);
    assert a.sent == l.sent + [Encoding(Frame(Data, PongBuffer, Advance(l.counters, PongBuffer)[PongBuffer], Some(Payload(f))))];
    AfterHeartbeat(l, codec, f);
    assert a.sent <= Handled(l, codec, f).sent;
  }

  /**
   * A DataWithAck frame is answered, right after the heartbeat handler, by an Ack frame on
   * `0x80 | target` whose sequence number is that buffer's next and whose payload is the one
   * byte of the acknowledged sequence number.
   */
  lemma AckReplyToDataWithAck(l: Link, codec: Codec, f: Frame)
    requires CanSend(l) && Encodable(f) && f.kind == DataWithAck && Heartbeat(l, f).receiving
    ensures var key := WithAckBit(f.target);
      Handled(l, codec, f).sent == Heartbeat(l, f).sent + [Encoding(Frame(Ack, key, Advance(l.counters, key)[key], Some([f.sequence])))]
  {
    var key := WithAckBit(f.target);
    var a := Heartbeat(l, f);
    assert SameCounter(l.counters, a.counters, key);
    var b := AckRequested(a, f);
    assert b.sent == a.sent + [Encoding(Frame(Ack, key, Advance(l.counters, key)[key], Some([f.sequence])))];
    assert AckReceived(b, f) == b;
  }

  /* ---- Properties of the reliable send ---- */

  /**
   * When sends go out, a command that encodes goes out between one and three times, three when
   * it is never acked; its pending entry is gone afterwards (the others only gain acks, see
   * `ReliableSendKeepsOtherEntries`); buffer 11's counter moved by exactly one.
   */
  lemma ReliableSendGoesOut(l: Link, codec: Codec, command: Command, incoming: seq<seq<seq<byte>>>)
    requires CanSend(l) && codec.encode(command).Some?
    ensures var r := Reliable(l, codec, command, incoming);
      && 1 <= r.transmissions <= MaxRetries
      && (!r.acked ==> r.transmissions == MaxRetries)
      && |r.link.pending| == |l.pending|
      && C2dCommandWithAckBuffer in r.link.counters
      && r.link.counters[C2dCommandWithAckBuffer] == Advance(l.counters, C2dCommandWithAckBuffer)[C2dCommandWithAckBuffer]
  {
    var data := codec.encode(command).value;
    var counters := Advance(l.counters, C2dCommandWithAckBuffer);
    var sequence := counters[C2dCommandWithAckBuffer];
    var entry := |l.pending|;
    var start := l.(counters := counters, pending := l.pending + [PendingAck(C2dCommandWithAckBuffer, sequence, MaxRetries, false)]);
    var r := Retry(start, codec, entry, Encoding(ReliableFrame(sequence, data)), incoming, 0);
    assert SameCounter(start.counters, r.link.counters, C2dCommandWithAckBuffer);
  }

  /**
   * When the send cannot go out (client closed, or no remote endpoint) the first send throws: the result is false, nothing goes out, the
   * sequence number is used up and the entry stays pending with one retry counted down.
   */
  lemma ReliableSendThrows(l: Link, codec: Codec, command: Command, incoming: seq<seq<seq<byte>>>)
    requires !CanSend(l) && codec.encode(command).Some?
    ensures var r := Reliable(l, codec, command, incoming);
      var sequence := Advance(l.counters, C2dCommandWithAckBuffer)[C2dCommandWithAckBuffer];
      && !r.acked && r.transmissions == 0 && r.link.sent == l.sent
      && r.link.pending == l.pending + [PendingAck(C2dCommandWithAckBuffer, sequence, MaxRetries - 1, false)]
  {
    var counters := Advance(l.counters, C2dCommandWithAckBuffer);
    var sequence := counters[C2dCommandWithAckBuffer];
    var e := PendingAck(C2dCommandWithAckBuffer, sequence, MaxRetries, false);
    assert (l.pending + [e])[|l.pending| := e.(remaining := MaxRetries - 1)] == l.pending + [e.(remaining := MaxRetries - 1)];
  }

  /** `n` copies of one datagram. */
  function Copies(d: seq<byte>, n: nat): (r: seq<seq<byte>>)
    ensures |r| == n && forall i :: 0 <= i < n ==> r[i] == d
  {
    if n == 0 then [] else [d] + Copies(d, n - 1)
  }

  /** `FirstMatch` looks at nothing but the targets and sequence numbers of the entries. */
  lemma FirstMatchKeys(p: seq<PendingAck>, q: seq<PendingAck>, target: int, sequence: byte)
    requires |p| == |q| && forall i :: 0 <= i < |p| ==> p[i].target == q[i].target && p[i].sequence == q[i].sequence
    ensures FirstMatch(p, target, sequence) == FirstMatch(q, target, sequence)
  {
    var a, b := FirstMatch(p, target, sequence), FirstMatch(q, target, sequence);
    if a.Some? && b.Some? {
      assert !(a.value < b.value) && !(b.value < a.value);
    }
  }

  /** A new entry appended behind entries that do not match it is the first match for its key. */
  lemma FirstMatchAppended(p: seq<PendingAck>, e: PendingAck)
    requires FirstMatch(p, e.target, e.sequence).None?
    ensures FirstMatch(p + [e], e.target, e.sequence) == Some(|p|)
  {
    var r := FirstMatch(p + [e], e.target, e.sequence);
    assert (p + [e])[|p|] == e;
  }

  /** The state right after one transmission of the retry loop: one retry counted down, the frame sent. */
  function Transmission(l: Link, entry: nat, encoded: seq<byte>): (r: Link)
    requires entry < |l.pending|
    ensures |r.pending| == |l.pending| && r.pending[entry].remaining == l.pending[entry].remaining - 1
    ensures r.pending[entry].acked == l.pending[entry].acked && r.pending[entry].sequence == l.pending[entry].sequence
  {
    l.(pending := l.pending[entry := l.pending[entry].(remaining := l.pending[entry].remaining - 1)], sent := l.sent + [encoded])
  }

  /**
   * The state after `n` transmissions of the entry's frame with no other change: `n` retries
   * counted down, `n` copies sent, and the ack flag `acked`.
   */
  function AfterAttempts(l: Link, entry: nat, encoded: seq<byte>, n: nat, acked: bool): Link
    requires entry < |l.pending|
  {
    l.(pending := l.pending[entry := l.pending[entry].(remaining := l.pending[entry].remaining - n, acked := acked)],
       sent := l.sent + Copies(encoded, n))
  }

  /** One more transmission in front of `n` of them. */
  lemma AfterAttemptsStep(l: Link, entry: nat, encoded: seq<byte>, n: nat, acked: bool)
    requires entry < |l.pending|
    ensures AfterAttempts(Transmission(l, entry, encoded), entry, encoded, n, acked) == AfterAttempts(l, entry, encoded, n + 1, acked)
  {
    var next := Transmission(l, entry, encoded);
    assert next.sent + Copies(encoded, n) == l.sent + Copies(encoded, n + 1);
  }

  /** A transmission after which nothing arrives in time: the loop goes on to the next attempt. */
  lemma RetrySilentTurn(l: Link, codec: Codec, entry: nat, encoded: seq<byte>, incoming: seq<seq<seq<byte>>>, attempt: nat)
    requires entry < |l.pending| && CanSend(l) && !l.pending[entry].acked && l.pending[entry].remaining > 0
    requires Arrivals(incoming, attempt) == []
    ensures CanSend(Transmission(l, entry, encoded)) && Transmission(l, entry, encoded).receiving == l.receiving
    ensures Retry(l, codec, entry, encoded, incoming, attempt) == Retry(Transmission(l, entry, encoded), codec, entry, encoded, incoming, attempt + 1)
  {
    RetryOnce(l, codec, entry, encoded, incoming, attempt, Transmission(l, entry, encoded));
  }

  /** Transmissions do not change which entry is the first match for a key. */
  lemma AfterAttemptsFirstMatch(l: Link, entry: nat, encoded: seq<byte>, n: nat, acked: bool, target: int, sequence: byte)
    requires entry < |l.pending|
    ensures FirstMatch(AfterAttempts(l, entry, encoded, n, acked).pending, target, sequence) == FirstMatch(l.pending, target, sequence)
  {
    FirstMatchKeys(l.pending, AfterAttempts(l, entry, encoded, n, acked).pending, target, sequence);
  }

  /** `n` transmissions, then one more that is acked. */
  lemma AfterAttemptsThenAcked(l: Link, entry: nat, encoded: seq<byte>, n: nat)
    requires entry < |l.pending|
    ensures AfterAttempts(AfterAttempts(l, entry, encoded, n, l.pending[entry].acked), entry, encoded, 1, true) == AfterAttempts(l, entry, encoded, n + 1, true)
  {
    var m := AfterAttempts(l, entry, encoded, n, l.pending[entry].acked);
    assert m.sent + Copies(encoded, 1) == l.sent + Copies(encoded, n + 1);
  }

  /**
   * With nothing arriving during the waits of attempts `attempt` up to `k`, the loop sends the
   * frame once per attempt and reaches attempt `k` with nothing else changed.
   */
  lemma {:induction false} RetrySilentUntil(l: Link, codec: Codec, entry: nat, encoded: seq<byte>, incoming: seq<seq<seq<byte>>>, attempt: nat, k: nat)
    requires entry < |l.pending| && CanSend(l) && !l.pending[entry].acked
    requires attempt <= k <= attempt + l.pending[entry].remaining
    requires forall j :: attempt <= j < k ==> Arrivals(incoming, j) == []
    ensures Retry(l, codec, entry, encoded, incoming, attempt) ==
      Retry(AfterAttempts(l, entry, encoded, k - attempt, false), codec, entry, encoded, incoming, k)
    decreases k - attempt
  {
    if attempt == k {
      assert l.pending[entry := l.pending[entry].(remaining := l.pending[entry].remaining - 0, acked := false)] == l.pending;
      assert l.sent + Copies(encoded, 0) == l.sent;
      assert AfterAttempts(l, entry, encoded, 0, false) == l;
    } else {
      RetrySilentTurn(l, codec, entry, encoded, incoming, attempt);
      RetrySilentUntil(Transmission(l, entry, encoded), codec, entry, encoded, incoming, attempt + 1, k);
      AfterAttemptsStep(l, entry, encoded, k - attempt - 1, false);
    }
  }

  /**
   * With nothing arriving during the waits, the retry loop sends the frame once per remaining
   * retry and ends with the entry not acked and its retries used up.
   */
  lemma RetryUnanswered(l: Link, codec: Codec, entry: nat, encoded: seq<byte>, incoming: seq<seq<seq<byte>>>, attempt: nat)
    requires entry < |l.pending| && CanSend(l) && !l.pending[entry].acked && l.pending[entry].remaining >= 0
    requires forall j :: attempt <= j < attempt + l.pending[entry].remaining ==> Arrivals(incoming, j) == []
    ensures Retry(l, codec, entry, encoded, incoming, attempt) ==
      Attempts(false, attempt + l.pending[entry].remaining, AfterAttempts(l, entry, encoded, l.pending[entry].remaining, false))
  {
    var n := l.pending[entry].remaining;
    RetrySilentUntil(l, codec, entry, encoded, incoming, attempt, attempt + n);
    RetryStops(AfterAttempts(l, entry, encoded, n, false), codec, entry, encoded, incoming, attempt + n);
  }

  /** The wait after this transmission brings the drone's Ack for the entry: the loop stops with it acked. */
  lemma RetryAckedNow(l: Link, codec: Codec, entry: nat, encoded: seq<byte>, incoming: seq<seq<seq<byte>>>, attempt: nat, s: byte)
    requires entry < |l.pending| && CanSend(l) && l.receiving && !l.pending[entry].acked && l.pending[entry].remaining > 0
    requires FirstMatch(l.pending, C2dCommandWithAckBuffer, l.pending[entry].sequence) == Some(entry)
    requires Arrivals(incoming, attempt) == [Encoding(AckFrame(s, l.pending[entry].sequence))]
    ensures Retry(l, codec, entry, encoded, incoming, attempt) == Attempts(false, attempt + 1, AfterAttempts(l, entry, encoded, 1, true))
  {
    var info := l.pending[entry];
    var transmitted := Transmission(l, entry, encoded);
    FirstMatchKeys(l.pending, transmitted.pending, C2dCommandWithAckBuffer, info.sequence);
    var d := Encoding(AckFrame(s, info.sequence));
    AckCompletesFirstMatch(transmitted, codec, s, info.sequence, entry);
    var waited := ReceivedFrom(transmitted, codec, d, 0);
    assert ReceivedAll(transmitted, codec, [d]) == ReceivedAll(waited, codec, []);
    RetryOnce(l, codec, entry, encoded, incoming, attempt, waited);
    assert Copies(encoded, 1) == [encoded];
  }

  /** `RetryAckedNow` after `n` silent transmissions. */
  lemma RetryAckedAfterSilence(l: Link, codec: Codec, entry: nat, encoded: seq<byte>, incoming: seq<seq<seq<byte>>>, n: nat, k: nat, s: byte)
    requires entry < |l.pending| && CanSend(l) && l.receiving && !l.pending[entry].acked && n < l.pending[entry].remaining
    requires FirstMatch(l.pending, C2dCommandWithAckBuffer, l.pending[entry].sequence) == Some(entry)
    requires Arrivals(incoming, k) == [Encoding(AckFrame(s, l.pending[entry].sequence))]
    ensures Retry(AfterAttempts(l, entry, encoded, n, false), codec, entry, encoded, incoming, k) ==
      Attempts(false, k + 1, AfterAttempts(l, entry, encoded, n + 1, true))
  {
    var m := AfterAttempts(l, entry, encoded, n, false);
    AfterAttemptsFirstMatch(l, entry, encoded, n, false, C2dCommandWithAckBuffer, l.pending[entry].sequence);
    assert m.pending[entry] == l.pending[entry].(remaining := l.pending[entry].remaining - n, acked := false);
    RetryAckedNow(m, codec, entry, encoded, incoming, k, s);
    AfterAttemptsThenAcked(l, entry, encoded, n);
  }

  /**
   * When nothing arrives during the waits before the `k`-th and that wait brings the drone's Ack
   * for the entry (the first match for its sequence number), the retry loop stops after `k + 1`
   * transmissions with the entry acked and nothing else changed.
   */
  lemma RetryAckedAt(l: Link, codec: Codec, entry: nat, encoded: seq<byte>, incoming: seq<seq<seq<byte>>>, attempt: nat, k: nat, s: byte)
    requires entry < |l.pending| && CanSend(l) && l.receiving && !l.pending[entry].acked
    requires attempt <= k < attempt + l.pending[entry].remaining
    requires FirstMatch(l.pending, C2dCommandWithAckBuffer, l.pending[entry].sequence) == Some(entry)
    requires forall j :: attempt <= j < k ==> Arrivals(incoming, j) == []
    requires Arrivals(incoming, k) == [Encoding(AckFrame(s, l.pending[entry].sequence))]
    ensures Retry(l, codec, entry, encoded, incoming, attempt) == Attempts(false, k + 1, AfterAttempts(l, entry, encoded, k + 1 - attempt, true))
  {
    RetrySilentUntil(l, codec, entry, encoded, incoming, attempt, k);
    RetryAckedAfterSilence(l, codec, entry, encoded, incoming, k - attempt, k, s);
  }

  /** One transmission and its wait leave the entries before `entry` as they were, apart from acks. */
  lemma TurnKeepsEarlierEntries(l: Link, codec: Codec, entry: nat, encoded: seq<byte>, arrivals: seq<seq<byte>>)
    requires entry < |l.pending| && CanSend(l)
    ensures var waited := ReceivedAll(Transmission(l, entry, encoded), codec, arrivals);
      |waited.pending| == |l.pending| && AcksOnly(l.pending[..entry], waited.pending[..entry])
  {
    var t := Transmission(l, entry, encoded);
    ReceivedAllIsReceiveStep(t, codec, arrivals);
    assert t.pending[..entry] == l.pending[..entry];
  }

  /** The retry loop leaves the entries before `entry` as they were, apart from acks. */
  lemma {:induction false} RetryKeepsEarlierEntries(l: Link, codec: Codec, entry: nat, encoded: seq<byte>, incoming: seq<seq<seq<byte>>>, attempt: nat)
    requires entry < |l.pending|
    ensures AcksOnly(l.pending[..entry], Retry(l, codec, entry, encoded, incoming, attempt).link.pending[..entry])
    decreases l.pending[entry].remaining
  {
    if l.pending[entry].remaining <= 0 || !CanSend(l) {
      RetryStops(l, codec, entry, encoded, incoming, attempt);
      assert l.pending[entry := l.pending[entry].(remaining := l.pending[entry].remaining - 1)][..entry] == l.pending[..entry];
    } else {
      var waited := ReceivedAll(Transmission(l, entry, encoded), codec, Arrivals(incoming, attempt));
      RetryOnce(l, codec, entry, encoded, incoming, attempt, waited);
      TurnKeepsEarlierEntries(l, codec, entry, encoded, Arrivals(incoming, attempt));
      if !waited.pending[entry].acked {
        RetryKeepsEarlierEntries(waited, codec, entry, encoded, incoming, attempt + 1);
      }
    }
  }

  /**
   * `SendDataWithAckMessage` when the drone stays silent: with nothing arriving during the waits,
   * the one frame goes out exactly three times, the result is false, and nothing else about the
   * session changes but buffer 11's sequence number.
   */
  lemma ReliableSendUnanswered(l: Link, codec: Codec, command: Command, incoming: seq<seq<seq<byte>>>)
    requires CanSend(l) && codec.encode(command).Some?
    requires forall j :: 0 <= j < MaxRetries ==> Arrivals(incoming, j) == []
    ensures var r := Reliable(l, codec, command, incoming);
      var counters := Advance(l.counters, C2dCommandWithAckBuffer);
      var frame := Encoding(ReliableFrame(counters[C2dCommandWithAckBuffer], codec.encode(command).value));
      && !r.acked && r.transmissions == MaxRetries
      && r.link == l.(counters := counters, sent := l.sent + Copies(frame, MaxRetries))
  {
    var counters := Advance(l.counters, C2dCommandWithAckBuffer);
    var sequence := counters[C2dCommandWithAckBuffer];
    var e := PendingAck(C2dCommandWithAckBuffer, sequence, MaxRetries, false);
    var start := l.(counters := counters, pending := l.pending + [e]);
    var frame := Encoding(ReliableFrame(sequence, codec.encode(command).value));
    RetryUnanswered(start, codec, |l.pending|, frame, incoming, 0);
    var after := start.pending[|l.pending| := e.(remaining := 0)];
    assert after[..|l.pending|] + after[|l.pending| + 1..] == l.pending;
  }

  /**
   * `SendDataWithAckMessage` answered during the `k`-th wait: when nothing arrives during the
   * waits before it and that one brings the drone's Ack for our sequence number, the result is
   * true after exactly `k + 1` transmissions of the one frame, and nothing else about the
   * session changes but buffer 11's sequence number. No older pending entry may carry the same
   * sequence number, since the Ack would complete that one instead.
   */
  lemma ReliableSendAckedAt(l: Link, codec: Codec, command: Command, incoming: seq<seq<seq<byte>>>, k: nat, s: byte)
    requires CanSend(l) && l.receiving && codec.encode(command).Some? && k < MaxRetries
    requires var sequence := Advance(l.counters, C2dCommandWithAckBuffer)[C2dCommandWithAckBuffer];
      && FirstMatch(l.pending, C2dCommandWithAckBuffer, sequence).None?
      && (forall j :: 0 <= j < k ==> Arrivals(incoming, j) == [])
      && Arrivals(incoming, k) == [Encoding(AckFrame(s, sequence))]
    ensures var r := Reliable(l, codec, command, incoming);
      var counters := Advance(l.counters, C2dCommandWithAckBuffer);
      var frame := Encoding(ReliableFrame(counters[C2dCommandWithAckBuffer], codec.encode(command).value));
      && r.acked && r.transmissions == k + 1
      && r.link == l.(counters := counters, sent := l.sent + Copies(frame, k + 1))
  {
    var counters := Advance(l.counters, C2dCommandWithAckBuffer);
    var sequence := counters[C2dCommandWithAckBuffer];
    var e := PendingAck(C2dCommandWithAckBuffer, sequence, MaxRetries, false);
    var start := l.(counters := counters, pending := l.pending + [e]);
    var frame := Encoding(ReliableFrame(sequence, codec.encode(command).value));
    FirstMatchAppended(l.pending, e);
    RetryAckedAt(start, codec, |l.pending|, frame, incoming, 0, k, s);
    var after := start.pending[|l.pending| := e.(remaining := MaxRetries - (k + 1), acked := true)];
    assert after[..|l.pending|] + after[|l.pending| + 1..] == l.pending;
  }

  /** Whatever arrives, a reliable send that goes out leaves the other pending entries as they were, apart from acks. */
  lemma ReliableSendKeepsOtherEntries(l: Link, codec: Codec, command: Command, incoming: seq<seq<seq<byte>>>)
    requires CanSend(l) && codec.encode(command).Some?
    ensures AcksOnly(l.pending, Reliable(l, codec, command, incoming).link.pending)
  {
    var counters := Advance(l.counters, C2dCommandWithAckBuffer);
    var sequence := counters[C2dCommandWithAckBuffer];
    var e := PendingAck(C2dCommandWithAckBuffer, sequence, MaxRetries, false);
    var start := l.(counters := counters, pending := l.pending + [e]);
    var frame := Encoding(ReliableFrame(sequence, codec.encode(command).value));
    var entry := |l.pending|;
    RetryKeepsEarlierEntries(start, codec, entry, frame, incoming, 0);
    assert start.pending[..entry] == l.pending;
    var after := Retry(start, codec, entry, frame, incoming, 0).link.pending;
    assert after[..entry] + after[entry + 1..] == after[..entry];
  }

  /* ---- Properties of the ping loop ---- */

  /** The ping loop's counter after `ticks` ticks from its initial 0. */
  function CounterAfter(ticks: nat): int
  {
    if ticks == 0 then 0 else NextCounter(CounterAfter(ticks - 1))
  }

  lemma {:induction false} CounterCycle(ticks: nat)
    requires ticks > 0
    ensures CounterAfter(ticks) == SettingsPeriod - (ticks - 1) % SettingsPeriod
  {
    if ticks > 1 {
      CounterCycle(ticks - 1);
      var q, k := (ticks - 2) / SettingsPeriod, (ticks - 2) % SettingsPeriod;
      assert ticks - 2 == q * SettingsPeriod + k && 0 <= k < SettingsPeriod;
      if k == SettingsPeriod - 1 {
        assert ticks - 1 == (q + 1) * SettingsPeriod;
        assert (ticks - 1) % SettingsPeriod == 0;
      } else {
        assert ticks - 1 == q * SettingsPeriod + (k + 1);
        assert (ticks - 1) % SettingsPeriod == k + 1;
      }
    }
  }

  /** `CmdAllSettings` goes out on ticks 1, 11, 21, ... and on no other tick. */
  lemma PingCadence(tick: nat)
    requires tick >= 1
    ensures CounterAfter(tick - 1) - 1 <= 0 <==> tick % SettingsPeriod == 1
  {
    if tick > 1 {
      CounterCycle(tick - 1);
    }
  }

  /**
   * One tick on a client that can send sends our timestamp on buffer 0 first, then `CmdAllSettings`
   * exactly when the counter runs out and the command encodes.
   */
  lemma PingTickSends(l: Link, codec: Codec, timestamp: int64)
    requires l.pinging && CanSend(l)
    ensures var r := PingTicked(l, codec, timestamp);
      && r.pinging && CanSend(r) && r.counter == NextCounter(l.counter)
      && |r.sent| == |l.sent| + 1 + (if l.counter - 1 <= 0 && codec.encode(AllSettingsCommand).Some? then 1 else 0)
      && r.sent[|l.sent|] == Encoding(Frame(Data, PingBuffer, Advance(l.counters, PingBuffer)[PingBuffer], Some(IntBytes(timestamp, 8))))
  {
  }

  /** Over the loop, the counter follows `CounterAfter` tick by tick. */
  lemma {:induction false} PingLoopCounter(l: Link, codec: Codec, timestamps: seq<int64>, done: nat)
    requires l.pinging && CanSend(l) && l.counter == CounterAfter(done)
    ensures var r := PingedAll(l, codec, timestamps);
      r.pinging && CanSend(r) && r.counter == CounterAfter(done + |timestamps|)
    decreases |timestamps|
  {
    if timestamps != [] {
      PingTickSends(l, codec, timestamps[0]);
      PingLoopCounter(PingTicked(l, codec, timestamps[0]), codec, timestamps[1..], done + 1);
    }
  }

  /* ---- Properties of the handshake ---- */

  /**
   * `Connect` returns "" exactly when no exception was caught and either nothing was read or the
   * reply's status was 0 (with a usable port).
   */
  lemma ConnectDecision(h: Handshake, endpointMessage: string)
    ensures ConnectError(h, endpointMessage) == Some("") <==>
      h.NothingRead? || (h.Replied? && h.status == 0 && 0 <= h.c2dPort <= MaxPort)
    ensures ConnectError(h, endpointMessage).None? <==> h.Uncaught?
  {
    match h
    case Replied(status, port) =>
      if status != 0 {
        assert ConnectError(h, endpointMessage).value[0] == 'S';
      } else if !(0 <= port <= MaxPort) {
        assert ConnectError(h, endpointMessage).value[0] == 'U';
      }
    case Caught(kind, message) =>
      assert |ConnectError(h, endpointMessage).value| > 0;
    case _ =>
  }

  /**
   * A successful `Connect` sets the address and starts both loops; the remote endpoint is set
   * from a reply but left as it was when nothing was read. A failed one closes the client and
   * leaves the address alone.
   */
  lemma ConnectEffects(l: Link, addr: Address, h: Handshake, endpointMessage: string)
    ensures var r := Connected(l, addr, h, endpointMessage);
      && (ConnectError(h, endpointMessage) == Some("") ==>
            r.open && r.receiving && r.pinging && r.address == Some(addr)
            && (h.NothingRead? ==> r.remote == l.remote)
            && (h.Replied? ==> r.remote == Some(Endpoint(addr, h.c2dPort))))
      && (ConnectError(h, endpointMessage).Some? && ConnectError(h, endpointMessage) != Some("") ==>
            !r.open && !r.receiving && !r.pinging && r.address == l.address && r.remote == l.remote)
      && r.sent == l.sent && r.pending == l.pending && r.counters == l.counters
  {
  }

  /**
   * A `Connect` that reads no reply succeeds without setting `_remoteEndPoint`: on a session that
   * had none, the loops start but every send throws, so the first ping tick sends nothing and ends
   * the ping loop, and a reliable send reports false.
   */
  lemma ConnectWithoutReplyCannotSend(l: Link, addr: Address, endpointMessage: string, codec: Codec, timestamp: int64, command: Command, incoming: seq<seq<seq<byte>>>)
    requires l.remote.None?
    ensures var r := Connected(l, addr, NothingRead, endpointMessage);
      && r.open && r.receiving && r.pinging && !CanSend(r)
      && PingTicked(r, codec, timestamp).sent == r.sent && !PingTicked(r, codec, timestamp).pinging
      && !Reliable(r, codec, command, incoming).acked
  {
    var r := Connected(l, addr, NothingRead, endpointMessage);
    if codec.encode(command).Some? {
      ReliableSendThrows(r, codec, command, incoming);
    }
  }

  /* ---- The session object ---- */

  /**
   * `ARWifiDevice`. `codec` is `_codec`; `table` is `ARFrame`'s static sequence-number table,
   * shared with every other session; the other fields are the `Link` components. The receive and
   * ping loops are the methods `ReceiveContinuous` and `PingTask`, run over the datagrams that
   * arrive and the timestamps of the ticks.
   */
  class WifiDevice {
    const codec: Codec
    const table: SequenceTable
    var open: bool
    var sent: seq<seq<byte>>
    var pending: seq<PendingAck>
    var delivered: seq<Command>
    var echo: Option<int64>
    var receiving: bool
    var pinging: bool
    var counter: int
    var address: Option<Address>
    var remote: Option<Endpoint>

    /** The session's state as a value. */
    function Snapshot(): Link
      reads this, table
    {
      Link(table.current, open, sent, pending, delivered, echo, receiving, pinging, counter, address, remote)
    }

    /** A session built on `codec`: no client, nothing sent, nothing pending, no loops. */
    constructor (codec: Codec, table: SequenceTable)
      ensures this.codec == codec && this.table == table
      ensures Snapshot() == Link(table.current, false, [], [], [], None, false, false, 0, None, None)
    {
      this.codec := codec;
      this.table := table;
      open := false;
      sent := [];
      pending := [];
      delivered := [];
      echo := None;
      receiving := false;
      pinging := false;
      counter := 0;
      address := None;
      remote := None;
    }

    /** Number, encode and send one frame; `ok` is false when the send throws. */
    method Transmit(kind: byte, target: byte, data: seq<byte>) returns (ok: bool)
      requires HeaderSize + |data| <= MaxInt32
      modifies this, table
      ensures ok == CanSend(old(Snapshot()))
      ensures Snapshot() == Transmitted(old(Snapshot()), kind, target, data)
    {
      var sequence := table.Next(target);
      var encoded := ARFrame.Encode(Frame(kind, target, sequence, Some(data)));
      ok := open && remote.Some?;
      if ok {
        sent := sent + [encoded];
      }
    }

    method HandleIfHeartbeat(f: Frame)
      requires Encodable(f)
      modifies this, table
      ensures Snapshot() == Heartbeat(old(Snapshot()), f)
    {
      if f.target == PingBuffer {
        var ok := Transmit(Data, PongBuffer, Payload(f));
        receiving := receiving && ok;
      } else if f.target == PongBuffer {
        if |Payload(f)| < 8 {
          receiving := false;
        } else {
          echo := Some(ToInt64(Payload(f), 0));
        }
      }
    }

    method HandleIfAckRequested(f: Frame)
      modifies this, table
      ensures Snapshot() == AckRequested(old(Snapshot()), f)
    {
      if f.kind == DataWithAck {
        var ok := Transmit(Ack, WithAckBit(f.target), [f.sequence]);
        receiving := receiving && ok;
      }
    }

    method HandleIfAck(f: Frame)
      modifies this
      ensures Snapshot() == AckReceived(old(Snapshot()), f)
    {
      if f.kind == Ack && f.target == WithAckBit(C2dCommandWithAckBuffer) && |Payload(f)| == 1 {
        var found := FirstMatch(pending, f.target % 0x80, Payload(f)[0]);
        match found
        case None =>
          receiving := false;
        case Some(i) =>
          if pending[i].acked {
            receiving := false;
          } else {
            pending := pending[i := pending[i].(acked := true)];
          }
      }
    }

    method HandleIfCommandTypeReceived(f: Frame)
      modifies this
      ensures Snapshot() == CommandReceived(old(Snapshot()), codec, f)
    {
      if f.target == D2cCommandBuffer || f.target == D2cCommandWithAckBuffer {
        var command := codec.decode(Payload(f));
        if command.Some? {
          delivered := delivered + [command.value];
        }
      }
    }

    /** The four handlers on one decoded frame; after one throws the others do not run. */
    method HandleFrame(f: Frame)
      requires Encodable(f)
      modifies this, table
      ensures Snapshot() == Handled(old(Snapshot()), codec, f)
    {
      HandleIfHeartbeat(f);
      if receiving {
        HandleIfAckRequested(f);
      }
      if receiving {
        HandleIfAck(f);
      }
      if receiving {
        HandleIfCommandTypeReceived(f);
      }
    }

    /** The inner loop of `receiveContinuousAsync` over one datagram. */
    method ProcessDatagram(d: seq<byte>)
      modifies this, table
      ensures Snapshot() == ReceivedFrom(old(Snapshot()), codec, d, 0)
    {
      var index: nat := 0;
      while receiving && index < |d|
        invariant ReceivedFrom(Snapshot(), codec, d, index) == ReceivedFrom(old(Snapshot()), codec, d, 0)
        decreases |d| - index
      {
        match Decode(d, index)
        case None =>
          index := |d|;
        case Some((f, next)) =>
          HandleFrame(f);
          if next <= index {
            receiving := false;
            index := |d|;
          } else {
            index := next;
          }
      }
    }

    /** `receiveContinuousAsync` over the datagrams that arrive, in order. */
    method ReceiveContinuous(ds: seq<seq<byte>>)
      modifies this, table
      ensures Snapshot() == ReceivedAll(old(Snapshot()), codec, ds)
    {
      for i := 0 to |ds|
        invariant ReceivedAll(Snapshot(), codec, ds[i..]) == ReceivedAll(old(Snapshot()), codec, ds)
      {
        assert ds[i..][1..] == ds[i + 1..];
        if receiving && open {
          ProcessDatagram(ds[i]);
        } else {
          receiving := false;
        }
      }
    }

    /** `SendDataMessage`; `threw` is whether the send threw. */
    method SendDataMessage(command: Command) returns (threw: bool)
      modifies this, table
      ensures threw == DataSendThrows(old(Snapshot()), codec, command)
      ensures Snapshot() == DataSent(old(Snapshot()), codec, command)
    {
      threw := false;
      var encoded := codec.encode(command);
      if encoded.Some? {
        var ok := Transmit(Data, C2dCommandBuffer, encoded.value);
        threw := !ok;
      }
    }

    /**
     * `SendDataWithAckMessage`; `incoming[k]` holds the datagrams the receive loop handles
     * during the wait that follows the `k`-th transmission.
     */
    method SendDataWithAckMessage(command: Command, incoming: seq<seq<seq<byte>>>) returns (acked: bool)
      modifies this, table
      ensures acked == Reliable(old(Snapshot()), codec, command, incoming).acked
      ensures Snapshot() == Reliable(old(Snapshot()), codec, command, incoming).link
    {
      var data := codec.encode(command);
      if data.None? {
        return false;
      }
      var sequence := table.Next(C2dCommandWithAckBuffer);
      var encoded := ARFrame.Encode(ReliableFrame(sequence, data.value));
      var entry := |pending|;
      pending := pending + [PendingAck(C2dCommandWithAckBuffer, sequence, MaxRetries, false)];
      var threw, transmissions := AwaitAck(entry, encoded, incoming);
      if threw {
        return false;
      }
      acked := pending[entry].acked;
      pending := pending[..entry] + pending[entry + 1..];
    }

    /**
     * The `while (info.RemainingRetries > 0)` loop for the pending entry at `entry`: whether a
     * send threw, and how many transmissions there were.
     */
    method AwaitAck(entry: nat, encoded: seq<byte>, incoming: seq<seq<seq<byte>>>) returns (threw: bool, attempt: nat)
      requires entry < |pending|
      modifies this, table
      ensures Attempts(threw, attempt, Snapshot()) == Retry(old(Snapshot()), codec, entry, encoded, incoming, 0)
    {
      ghost var whole := Retry(Snapshot(), codec, entry, encoded, incoming, 0);
      attempt := 0;
      threw := false;
      var stop := false;
      while !stop
        invariant entry < |pending|
        invariant !stop ==> !threw && Retry(Snapshot(), codec, entry, encoded, incoming, attempt) == whole
        invariant stop ==> whole == Attempts(threw, attempt, Snapshot())
        decreases !stop, pending[entry].remaining
      {
        threw, stop, attempt := RetryTurn(entry, encoded, incoming, attempt);
      }
    }

    /**
     * One turn of that loop: stop when no retries remain; otherwise count one down and send,
     * stopping when the send throws, and wait for the ack, stopping when it arrives.
     */
    method RetryTurn(entry: nat, encoded: seq<byte>, incoming: seq<seq<seq<byte>>>, attempt: nat) returns (threw: bool, stop: bool, next: nat)
      requires entry < |pending|
      modifies this, table
      ensures entry < |pending|
      ensures stop ==> Retry(old(Snapshot()), codec, entry, encoded, incoming, attempt) == Attempts(threw, next, Snapshot())
      ensures !stop ==> !threw && 0 <= pending[entry].remaining < old(pending[entry].remaining)
      ensures !stop ==> Retry(old(Snapshot()), codec, entry, encoded, incoming, attempt) == Retry(Snapshot(), codec, entry, encoded, incoming, next)
    {
      ghost var before := Snapshot();
      threw, stop, next := false, true, attempt;
      if pending[entry].remaining <= 0 {
        RetryStops(before, codec, entry, encoded, incoming, attempt);
      } else {
        pending := pending[entry := pending[entry].(remaining := pending[entry].remaining - 1)];
        if !(open && remote.Some?) {
          RetryStops(before, codec, entry, encoded, incoming, attempt);
          threw := true;
        } else {
          sent := sent + [encoded];
          ReceiveContinuous(Arrivals(incoming, attempt));
          RetryOnce(before, codec, entry, encoded, incoming, attempt, Snapshot());
          next := attempt + 1;
          stop := pending[entry].acked;
        }
      }
    }

    /** One turn of `pingTask`. */
    method PingTick(timestamp: int64)
      modifies this, table
      ensures Snapshot() == PingTicked(old(Snapshot()), codec, timestamp)
    {
      if pinging {
        var ok := Transmit(Data, PingBuffer, IntBytes(timestamp, 8));
        if !ok {
          pinging := false;
        } else {
          counter := counter - 1;
          if counter <= 0 {
            counter := SettingsPeriod;
            var threw := SendDataMessage(AllSettingsCommand);
          }
        }
      }
    }

    /** `pingTask` over the timestamps of successive ticks. */
    method PingTask(timestamps: seq<int64>)
      modifies this, table
      ensures Snapshot() == PingedAll(old(Snapshot()), codec, timestamps)
    {
      for i := 0 to |timestamps|
        invariant PingedAll(Snapshot(), codec, timestamps[i..]) == PingedAll(old(Snapshot()), codec, timestamps)
      {
        assert timestamps[i..][1..] == timestamps[i + 1..];
        PingTick(timestamps[i]);
      }
    }

    /**
     * `Connect`, with the TCP handshake's outcome as an input; `error` is the string returned,
     * `None` when an exception escapes.
     */
    method Connect(addr: Address, h: Handshake, endpointMessage: string) returns (error: Option<string>)
      modifies this
      ensures error == ConnectError(h, endpointMessage)
      ensures Snapshot() == Connected(old(Snapshot()), addr, h, endpointMessage)
    {
      open := true;
      if h.Uncaught? {
        return None;
      }
      var e := "";
      match h {
        case NothingRead =>
        case Replied(status, port) =>
          if status != 0 {
            e := "Status error: " + IntToString(status);
          } else if 0 <= port <= MaxPort {
            remote := Some(Endpoint(addr, port));
          } else {
            e := "Unable to connect with drone: " + endpointMessage;
          }
        case Caught(kind, message) =>
          if kind == JsonError {
            e := "JSON error: " + message;
          } else {
            e := "Unable to connect with drone: " + message;
          }
      }
      if e == "" {
        address := Some(addr);
        receiving := true;
        pinging := true;
        counter := 0;
      } else {
        open := false;
        receiving := false;
        pinging := false;
      }
      error := Some(e);
    }

    method Dispose()
      modifies this
      ensures Snapshot() == Disposed(old(Snapshot()))
    {
      open := false;
      receiving := false;
      pinging := false;
    }
  }
}
