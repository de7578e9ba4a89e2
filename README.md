# ARSDK3 drone client: a Dafny model

This project models the core of a C# client for Parrot drones that speak the ARSDK 3 network
protocol. It covers six parts:

- the wire formats. A frame has a 7-byte header (type, target buffer, sequence number, total size)
  and a payload. A command identifier is 4 bytes (feature, class, 2-byte command id). The
  bounds-checked packer writes both;
- the per-buffer sequence counters that number every frame sent;
- the UDP session (`ARWifiDevice`):
  - the handshake outcome of `Connect`;
  - the receive loop, which splits each datagram into frames and runs the four handlers;
  - the heartbeat bounce and the ack reply;
  - ack matching for reliable sends and the 3-try retry loop;
  - the ping loop with its 10-tick `CmdAllSettings` cadence;
- the drone state the received commands update (`AR.Device` `ARDrone` and `ARBebop`), and the
  earlier self-contained session class `AR.Network` `ARDrone`;
- zeroconf discovery (`ARNetwork`), which keeps the `Drones` collection in step with found and
  lost services;
- the code generator's models of XML commands and arguments (`CommandModel`, `CommandArgModel`,
  `StringHelper`), and the application's own copies of the frame, command and packer (`AR.App`).

Each core source file has one module. Pure logic is functions and lemmas. State that the source
changes in place is a class:
- `ARWifiDevice.WifiDevice`, `DeviceDrone.Drone`, `DeviceBebop.Bebop`, `NetworkDrone.LegacyDrone`,
  `ARNetwork.Network`;
- `SequenceNumbers.SequenceTable`, the static dictionary behind `NextSequenceNumber`.

Each class has a `Snapshot`/`State`/`Info` value. Each method's `ensures` ties the new snapshot to a
specification function of the old one. The lemmas about those functions state what the source
promises.

Byte buffers are `array<byte>` where the source fills an array in place, and `seq<byte>`
elsewhere. The socket is an append-only log of the datagrams sent. The datagrams that arrive, the
handshake outcome and the `Stopwatch` timestamps are inputs. `System.BitConverter` is modelled
little-endian.

Where the specification and the code disagree, the model follows the code. The few places where
the model departs from the code are listed under "## Left out". Three points where the code
differs from what one might expect:
- An exception in the receive or ping loop ends that loop, because the `catch` sits outside the
  `while` (AR.Network/ARWifiDevice.cs:375-416, 332-373). The loop does not "log and continue".
- `Connect` returns the empty string, which is success, when the handshake stream yields no
  reply (AR.Network/ARWifiDevice.cs:63-126). An absent response is not a failure there, but
  `_remoteEndPoint` stays unset, and every later send to it throws.
- The receive loop decodes frames with `ARFrame.Decode` as written, which does not check the
  declared size against the header size (see "## Findings").

## Model

| member | source | states |
|---|---|---|
| Bytes.LittleEndianRoundTrip | AR.Common/ARPacker.cs:62-108 | reading back the little-endian bytes of a value that fits gives the value |
| Bytes.FromLittleEndianRoundTrip | AR.Common/ARPacker.cs:62-108 | every byte string is the little-endian form of its value, so the encoding is onto |
| Bytes.Int32RoundTrip | AR.Network/ARFrame.cs:67-89 | an `int` written by `GetBytes` anywhere in a buffer reads back unchanged with `ToInt32` |
| Bytes.Int32Bytes | AR.Network/ARFrame.cs:71 | four bytes read with `ToInt32` are written back unchanged by `GetBytes` |
| Bytes.UInt16RoundTrip | AR.Commands/ARCommandIdentifier.cs:54-71 | a `ushort` written by `GetBytes` reads back unchanged with `ToUInt16` |
| Bytes.Int64RoundTrip | AR.Network/ARWifiDevice.cs:306-330 | a `long` timestamp written by `GetBytes` reads back unchanged with `ToInt64` |
| Decimal.NatToStringRoundTrip | AR.Commands/ARCommandIdentifier.cs:130-133 | parsing the decimal text of a number gives the number back |
| Decimal.NatToStringInjective | AR.Commands/ARCommandIdentifier.cs:130-133 | different numbers have different decimal texts |
| ARPacker.GetBytes | AR.Common/ARPacker.cs:28-108 | each overload writes exactly its type's width in bytes |
| ARPacker.AsciiBytes | AR.Common/ARPacker.cs:110-124 | one byte per character, each below 0x80, equal to the character when it is ASCII |
| ARPacker.WrittenTwice | AR.Common/ARPacker.cs:126-136 | two writes back to back at a running index are one write of both byte strings |
| ARPacker.AppendBytes | AR.Common/ARPacker.cs:126-136 | succeeds exactly when the bytes fit; it then writes them at the index and advances it, and otherwise changes nothing |
| ARPacker.Append | AR.Common/ARPacker.cs:28-108 | every fixed-width overload succeeds exactly when its width fits; it then writes `BitConverter` bytes and advances, and otherwise leaves buffer and index alone |
| ARPacker.AppendString | AR.Common/ARPacker.cs:110-124 | as written: ASCII bytes then a 0 terminator; when the characters fit but the terminator does not, the result is false, yet the characters stay written and the index advanced |
| ARPacker.StringAppendNotAtomic | AR.Common/ARPacker.cs:110-124 | "hi" into a 2-byte buffer: the result is false, the index is 2 and the buffer holds 0x68 0x69 |
| ARPacker.AppendStringAtomic | AR.Common/ARPacker.cs:110-124 | corrected: writes characters and terminator only when both fit; otherwise nothing changes |
| AppPacker.Bound | AR.App/Packer.cs:7-75 | a `byte`/`sbyte` argument binds to an overload at least as wide, never a byte overload |
| AppPacker.BlockCopy | AR.App/Packer.cs:21-26 | `Buffer.BlockCopy` throws exactly when the range does not fit; otherwise it writes the bytes at the offset |
| AppPacker.Append | AR.App/Packer.cs:7-75 | throws exactly when the bound overload's bytes do not fit; otherwise writes them and advances the index by their width |
| AppPacker.ByteWidensToShort | AR.App/Packer.cs:21-26 | a byte argument is written as a 2-byte short: the byte, then 0 |
| ARCommandIdentifier.Decode | AR.Commands/ARCommandIdentifier.cs:54-71 | null exactly when fewer than 4 bytes remain; otherwise feature and class are the first two bytes and the index advances by 4 (the command id is covered by `DecodeWritten`) |
| ARCommandIdentifier.Encode | AR.Commands/ARCommandIdentifier.cs:78-95 | as written: always reports success; with room it writes the 4 bytes and advances; without room nothing changes |
| ARCommandIdentifier.EncodeWithoutRoom | AR.Commands/ARCommandIdentifier.cs:78-95 | a 2-byte buffer: `Encode` returns true, writes nothing and leaves the index at 0 |
| ARCommandIdentifier.EncodeChecked | AR.Commands/ARCommandIdentifier.cs:78-95 | corrected: succeeds exactly when 4 bytes remain, and then writes the identifier bytes |
| ARCommandIdentifier.DecodeWritten | AR.Commands/ARCommandIdentifier.cs:54-95 | round trip: what `Encode` writes at an index, `Decode` at that index reads back, with the index 4 further |
| ARCommandIdentifier.Equals | AR.Commands/ARCommandIdentifier.cs:98-108 | true exactly for a non-null identifier with all three fields equal |
| ARCommandIdentifier.EqualsObject | AR.Commands/ARCommandIdentifier.cs:111-117 | true exactly for an object of exactly this type with equal fields, and then it agrees with `Equals` |
| ARCommandIdentifier.Wrap32 | AR.Commands/ARCommandIdentifier.cs:120-127 | the unchecked `int` result is congruent to the exact one modulo 2^32 |
| ARCommandIdentifier.EqualsImpliesSameHash | AR.Commands/ARCommandIdentifier.cs:98-127 | equal identifiers have equal hash codes |
| ARCommandIdentifier.ToStringInjective | AR.Commands/ARCommandIdentifier.cs:130-133 | "feature:class:command" strings are equal only for equal identifiers |
| ARCommand.EncodeData | AR.Commands/ARCommand.cs:43-46 | the default `Encode` succeeds and leaves the index where it was |
| ARFrame.Size | AR.Network/ARFrame.cs:55 | the header size 7 plus the payload length, 0 for a null payload |
| ARFrame.Header | AR.Network/ARFrame.cs:103-119 | the header is 7 bytes |
| ARFrame.AppendLeadingBytes | AR.Network/ARFrame.cs:108-110 | the first three appends write type, target and sequence at 0..2 and leave the index at 3 |
| ARFrame.AppendHeader | AR.Network/ARFrame.cs:108-111 | the four appends write the 7-byte header (with `Size` little-endian) and leave the index at 7 |
| ARFrame.Encode | AR.Network/ARFrame.cs:103-119 | the encoding is the header followed by the payload |
| ARFrame.EncodingLayout | AR.Network/ARFrame.cs:103-119 | the encoded bytes number `Size`; bytes 0-2 are type, target and sequence; `ToInt32` at 3 is `Size`; the rest is the payload |
| ARFrame.Decode | AR.Network/ARFrame.cs:67-89 | no frame exactly when fewer than 7 bytes remain or the declared size exceeds what remains; otherwise type, target and sequence are bytes 0-2, the index moves by the declared size and stays within the buffer, and the frame's `Size` is the declared size, or 7 when that is smaller |
| ARFrame.DecodedReencodes | AR.Network/ARFrame.cs:67-119 | the other round trip: a frame decoded with a declared size of at least 7 encodes back to exactly the bytes it was read from |
| ARFrame.DecodeEncoding | AR.Network/ARFrame.cs:67-119 | round trip anywhere in a datagram: decoding a frame's bytes gives the frame back (a null payload as empty) and moves the index by exactly `Size` |
| ARFrame.DecodeUndersized | AR.Network/ARFrame.cs:67-89 | as written: a declared size below 7 is accepted with an empty payload, and the index moves by the declared size only (0 or backwards) |
| ARFrame.ZeroSizeFrameMakesNoProgress | AR.Network/ARFrame.cs:67-89 | a concrete header declaring size 0 decodes to a frame and leaves the index where it was |
| ARFrame.DecodeChecked | AR.Network/ARFrame.cs:67-89 | corrected: a decoded frame spans at least the header, lies within the buffer, and its `Size` is exactly the bytes consumed |
| ARFrame.DecodeCheckedAgrees | AR.Network/ARFrame.cs:67-89 | the checked decoder agrees with the one as written whenever the declared size is at least 7 |
| AppFrame.DecodeAgreesWithNetworkFrame | AR.App/Frame.cs:23-46 | the application's decoder fails exactly when the network one does, and otherwise returns the same frame with `consumed` equal to the index advance |
| AppFrame.DecodeUndersized | AR.App/Frame.cs:23-46 | a declared size below 7 is accepted with an empty payload and `consumed` is that declared size |
| AppFrame.Encode | AR.App/Frame.cs:58-74 | as written: the byte fields bind to `Append(short)`, so the appends overrun the `Size`-byte array and every path throws |
| AppFrame.DecodesNetworkEncoding | AR.App/Frame.cs:23-46 | the intended encoding (the network frame's) decodes back to the frame with exactly `Size` bytes consumed |
| AppCommand.Size | AR.App/Command.cs:12 | the 4-byte header plus the data length |
| AppCommand.Decode | AR.App/Command.cs:14-30 | null exactly when fewer than 4 bytes remain |
| AppCommand.DecodeCollapsesIds | AR.App/Command.cs:14-30 | as written: all three ids are read from the first header byte, and the data is everything after the header |
| AppCommand.DecodeLosesIds | AR.App/Command.cs:14-30 | the bytes of command (1, 4, 5) decode to (1, 1, 1) |
| AppCommand.IntendedRoundTrip | AR.App/Command.cs:14-47 | corrected: decoding the identifier layout then the data gives the command back at any offset |
| AppCommand.Encode | AR.App/Command.cs:32-47 | as written: the two byte ids take 2 bytes each, so the command id or the data overruns the array and every path throws |
| AppCommand.EncodeIntended | AR.App/Command.cs:32-47 | corrected: the identifier bytes then the data, which the intended decoder reads back |
| SequenceNumbers.Advance | AR.Network/ARFrame.cs:92-100 | the buffer's counter becomes old+1 mod 256 (1 when absent); every other counter is kept |
| SequenceNumbers.CountsModulo256 | AR.Network/ARFrame.cs:92-100 | from an unused buffer, the n-th call returns n mod 256 |
| SequenceNumbers.OtherBuffersUntouched | AR.Network/ARFrame.cs:92-100 | calls for one buffer never change another buffer's counter |
| SequenceNumbers.SequenceTable.constructor | AR.Network/ARFrame.cs:122 | the static table starts empty |
| SequenceNumbers.SequenceTable.Next | AR.Network/ARFrame.cs:92-100 | returns the advanced counter and stores it |
| ARWifiDevice.WithAckBit | AR.Network/ARWifiDevice.cs:283 | `0x80 \| target` has the top bit set and the same low seven bits |
| ARWifiDevice.FirstMatch | AR.Network/ARWifiDevice.cs:264-266 | the first pending entry with the buffer and sequence, with no earlier match, or none at all |
| ARWifiDevice.HeartbeatIsReceiveStep | AR.Network/ARWifiDevice.cs:306-330 | the heartbeat handler is a receive step: the connection flags stay, the send and delivered logs only grow, pending entries only gain acks, and every counter below 0x80 except buffer 1 is kept |
| ARWifiDevice.AckRequestedIsReceiveStep | AR.Network/ARWifiDevice.cs:274-289 | the ack-reply handler is a receive step |
| ARWifiDevice.AckReceivedIsReceiveStep | AR.Network/ARWifiDevice.cs:258-272 | the ack handler is a receive step: it only turns ack flags on |
| ARWifiDevice.HandledIsReceiveStep | AR.Network/ARWifiDevice.cs:388-394 | the four handlers together are a receive step |
| ARWifiDevice.ReceivedFromIsReceiveStep | AR.Network/ARWifiDevice.cs:384-400 | processing a datagram from any index is a receive step |
| ARWifiDevice.ReceivedAllIsReceiveStep | AR.Network/ARWifiDevice.cs:375-416 | so does any run of the receive loop |
| ARWifiDevice.ReceiveSplitsFrames | AR.Network/ARWifiDevice.cs:384-400 | a datagram of frames laid end to end is handled frame by frame, in order, each exactly as encoded |
| ARWifiDevice.StoppedStaysStopped | AR.Network/ARWifiDevice.cs:375-416 | once a handler has thrown, later datagrams are not looked at |
| ARWifiDevice.AckCompletesFirstMatch | AR.Network/ARWifiDevice.cs:258-272 | an Ack for buffer 11 completes the first matching pending entry and changes nothing else |
| ARWifiDevice.UnmatchedAckStopsReceiving | AR.Network/ARWifiDevice.cs:258-272 | an Ack with no match, or whose match is already completed, ends the receive loop and leaves the pending list alone |
| ARWifiDevice.AfterHeartbeat | AR.Network/ARWifiDevice.cs:390-393 | the handlers after the heartbeat handler form a receive step |
| ARWifiDevice.HeartbeatBounced | AR.Network/ARWifiDevice.cs:306-330 | when sends go out, a frame on buffer 0 is answered first by a Data frame on buffer 1 with buffer 1's next sequence number and the same payload |
| ARWifiDevice.AckReplyToDataWithAck | AR.Network/ARWifiDevice.cs:274-289 | when sends go out, a DataWithAck frame is answered by an Ack on `0x80 \| target` with that buffer's next sequence number and the acknowledged sequence as payload |
| ARWifiDevice.Retry | AR.Network/ARWifiDevice.cs:205-213 | the retry loop transmits at most the retries left and stops early only on an ack or a throw |
| ARWifiDevice.RetryStops | AR.Network/ARWifiDevice.cs:205-213 | the loop ends at once when no retries remain, and throws when the send cannot go out (client disposed or no remote endpoint) |
| ARWifiDevice.RetryOnce | AR.Network/ARWifiDevice.cs:205-213 | when the send goes out, one turn counts a retry down, sends the frame once and then handles what arrives |
| ARWifiDevice.ReliableSendGoesOut | AR.Network/ARWifiDevice.cs:175-237 | when sends go out (live client, remote endpoint set), an encodable command goes out 1 to 3 times, 3 when never acked; the pending list returns to its length; buffer 11's counter moves by one |
| ARWifiDevice.ReliableSendThrows | AR.Network/ARWifiDevice.cs:175-237 | when the first send throws (client disposed, or no remote endpoint) the result is false and nothing is sent; the sequence number is used up and the entry stays pending with one retry gone |
| ARWifiDevice.FirstMatchKeys | AR.Network/ARWifiDevice.cs:264-266 | `FirstOrDefault` looks only at the buffer and sequence of each entry, so counting retries down never changes which entry an Ack completes |
| ARWifiDevice.FirstMatchAppended | AR.Network/ARWifiDevice.cs:196-199 | a new entry added behind entries with other keys is the first match for its own key |
| ARWifiDevice.RetrySilentUntil | AR.Network/ARWifiDevice.cs:205-213 | with nothing arriving during the waits up to attempt k, the loop sends the frame once per attempt and changes nothing else |
| ARWifiDevice.RetryUnanswered | AR.Network/ARWifiDevice.cs:205-213 | with nothing arriving, the loop sends the frame once per remaining retry and ends with the entry not acked and no retries left |
| ARWifiDevice.RetryAckedNow | AR.Network/ARWifiDevice.cs:204-213 | when the wait after a transmission brings the drone's Ack for the entry, the loop stops with the entry acked |
| ARWifiDevice.RetryAckedAt | AR.Network/ARWifiDevice.cs:204-213 | when nothing arrives before the k-th wait and that wait brings the Ack, the loop stops after exactly k + 1 transmissions with the entry acked |
| ARWifiDevice.TurnKeepsEarlierEntries | AR.Network/ARWifiDevice.cs:205-213 | one transmission and its wait leave the other entries as they were, apart from acks |
| ARWifiDevice.RetryKeepsEarlierEntries | AR.Network/ARWifiDevice.cs:205-213 | the whole retry loop leaves the entries before its own as they were, apart from acks |
| ARWifiDevice.ReliableSendUnanswered | AR.Network/ARWifiDevice.cs:175-237 | when the drone stays silent, `SendDataWithAckMessage` returns false after sending the one frame exactly 3 times; the session is otherwise unchanged except for buffer 11's sequence number |
| ARWifiDevice.ReliableSendAckedAt | AR.Network/ARWifiDevice.cs:175-237 | when the k-th wait brings the drone's Ack for our sequence number (and no older entry has it), the result is true after exactly k + 1 transmissions of the one frame, with nothing else changed but buffer 11's sequence number |
| ARWifiDevice.ReliableSendKeepsOtherEntries | AR.Network/ARWifiDevice.cs:175-237 | whatever arrives, a reliable send that goes out leaves the other pending entries as they were, apart from acks |
| ARWifiDevice.CounterCycle | AR.Network/ARWifiDevice.cs:334-354 | the ping counter after t ticks is 10 - (t-1) mod 10 |
| ARWifiDevice.PingCadence | AR.Network/ARWifiDevice.cs:350-355 | `CmdAllSettings` goes out on ticks 1, 11, 21, ... and no other |
| ARWifiDevice.PingTickSends | AR.Network/ARWifiDevice.cs:337-356 | when sends go out, a tick sends the timestamp on buffer 0 first, then `CmdAllSettings` exactly when the counter runs out and it encodes |
| ARWifiDevice.PingLoopCounter | AR.Network/ARWifiDevice.cs:332-373 | over the loop the counter follows `CounterAfter` tick by tick |
| ARWifiDevice.ConnectDecision | AR.Network/ARWifiDevice.cs:63-126 | `Connect` returns "" exactly when nothing was caught and either no reply was read or its status was 0 with a valid port |
| ARWifiDevice.ConnectEffects | AR.Network/ARWifiDevice.cs:63-126 | success sets the address and starts both loops (the endpoint only from a reply); failure closes the client and keeps the address |
| ARWifiDevice.ConnectWithoutReplyCannotSend | AR.Network/ARWifiDevice.cs:63-126 | after a `Connect` that read no reply on a session without an endpoint, the loops start but no send can go out: the first ping tick sends nothing and ends the ping loop, and a reliable send returns false |
| ARWifiDevice.WifiDevice.constructor | AR.Network/ARWifiDevice.cs:136-139 | a fresh session has no client, no log, nothing pending and no loops |
| ARWifiDevice.WifiDevice.Transmit | AR.Network/ARWifiDevice.cs:151-169 | numbers, encodes and sends one frame: the new state is `Transmitted` of the old, and `ok` says whether the send went out, which needs a live client and a remote endpoint |
| ARWifiDevice.WifiDevice.HandleIfHeartbeat | AR.Network/ARWifiDevice.cs:306-330 | the new state is `Heartbeat` of the old |
| ARWifiDevice.WifiDevice.HandleIfAckRequested | AR.Network/ARWifiDevice.cs:274-289 | the new state is `AckRequested` of the old |
| ARWifiDevice.WifiDevice.HandleIfAck | AR.Network/ARWifiDevice.cs:258-272 | the new state is `AckReceived` of the old |
| ARWifiDevice.WifiDevice.HandleIfCommandTypeReceived | AR.Network/ARWifiDevice.cs:291-304 | the new state is `CommandReceived` of the old |
| ARWifiDevice.WifiDevice.HandleFrame | AR.Network/ARWifiDevice.cs:388-394 | the new state is `Handled` of the old |
| ARWifiDevice.WifiDevice.ProcessDatagram | AR.Network/ARWifiDevice.cs:383-400 | the inner loop, decoding with `Decode` as written: the new state is `ReceivedFrom` of the old, from index 0 |
| ARWifiDevice.WifiDevice.ReceiveContinuous | AR.Network/ARWifiDevice.cs:375-416 | the new state is `ReceivedAll` of the old over the datagrams |
| ARWifiDevice.WifiDevice.SendDataMessage | AR.Network/ARWifiDevice.cs:151-169 | the new state is `DataSent` of the old; it throws exactly when the command encodes and the client is disposed or has no remote endpoint |
| ARWifiDevice.WifiDevice.SendDataWithAckMessage | AR.Network/ARWifiDevice.cs:175-237 | the result and new state are `Reliable` of the old |
| ARWifiDevice.WifiDevice.AwaitAck | AR.Network/ARWifiDevice.cs:205-213 | the while loop's outcome and state are `Retry` of the old |
| ARWifiDevice.WifiDevice.RetryTurn | AR.Network/ARWifiDevice.cs:205-213 | one turn of the loop, consistent with `Retry` |
| ARWifiDevice.WifiDevice.PingTick | AR.Network/ARWifiDevice.cs:339-357 | the new state is `PingTicked` of the old |
| ARWifiDevice.WifiDevice.PingTask | AR.Network/ARWifiDevice.cs:332-373 | the new state is `PingedAll` of the old over the timestamps |
| ARWifiDevice.WifiDevice.Connect | AR.Network/ARWifiDevice.cs:63-126 | the returned string and new state are `ConnectError` and `Connected` of the old |
| ARWifiDevice.WifiDevice.Dispose | AR.Network/ARWifiDevice.cs:129-133 | the new state is `Disposed` of the old |
| DeviceDrone.UnrecognisedLeavesUnchanged | AR.Device/ARDrone.cs:95-134 | a command outside the eight branches leaves every field as it was |
| DeviceDrone.SerialHalves | AR.Device/ARDrone.cs:111-120 | each serial message replaces only its own half of `SerialNumber`; other commands leave it alone |
| DeviceDrone.FieldsFromMessage | AR.Device/ARDrone.cs:99-133 | `OutdoorWifi` is `Outdoor == 1`; a version message sets both versions; the other fields are copied verbatim |
| DeviceDrone.DispatchIdempotent | AR.Device/ARDrone.cs:95-134 | handling the same command twice is the same as once |
| DeviceDrone.DispatchedAllSnoc | AR.Device/ARDrone.cs:95-134 | a run of commands followed by one more is the run, then that command |
| DeviceDrone.SerialAfterRun | AR.Device/ARDrone.cs:64-67 | after any run, `SerialNumber` is the last high half received then the last low half received |
| DeviceDrone.Drone.constructor | AR.Device/ARDrone.cs:91-93 | every string field starts empty, the flag false and the signal 0 |
| DeviceDrone.Drone.HandleReceivedCommand | AR.Device/ARDrone.cs:95-134 | the new fields are `Dispatched` of the old |
| DeviceDrone.Drone.SerialNumber | AR.Device/ARDrone.cs:64-67 | the high half followed by the low half |
| DeviceBebop.HomeTypeMapping | AR.Device/ARBebop.cs:228-244 | only TAKEOFF, PILOT and FOLLOWEE change the behaviour, each to its own value |
| DeviceBebop.HomeBehaviorInjective | AR.Device/ARBebop.cs:228-244 | no two home types give the same behaviour, and none gives `Unknown` |
| DeviceBebop.RangesTogether | AR.Device/ARBebop.cs:202-223 | `MaxDistanceEnabled` is `ShouldNotFlyOver == 1`; a range message sets current, max and min together and nothing else |
| DeviceBebop.UnrecognisedLeavesUnchanged | AR.Device/ARBebop.cs:182-249 | a command outside the Bebop's chain leaves its fields as they were |
| DeviceBebop.HandlersDisjoint | AR.Device/ARBebop.cs:182-249 | the drone-level and Bebop-level chains recognise disjoint commands, so each command changes at most one part of the state |
| DeviceBebop.Bebop.constructor | AR.Device/ARBebop.cs:38-40 | units start `Invalid`, the behaviour `Unknown`, the flag false and the delay 0 |
| DeviceBebop.Bebop.SetReturnHomeBehavior | AR.Device/ARBebop.cs:134-145 | assigns the value, and notifies exactly when it differs from the old |
| DeviceBebop.Bebop.HandleReceivedCommand | AR.Device/ARBebop.cs:182-249 | the drone's handler, then the Bebop's own chain: the new state is `Handled` of the old |
| DeviceBebop.Bebop.HandleOwnCommand | AR.Device/ARBebop.cs:186-248 | the new Bebop fields are `Dispatched` of the old |
| DeviceBebop.Bebop.HandleHomeType | AR.Device/ARBebop.cs:230-243 | the `switch` sets the mapped behaviour, and a value with no `case` changes nothing |
| NetworkDrone.UnrecognisedLeavesUnchanged | AR.Network/ARDrone.cs:276-348 | a command of no recognised kind leaves the telemetry unchanged |
| NetworkDrone.FloatFields | AR.Network/ARDrone.cs:276-348 | the speed, altitude and attitude branches copy the message's values and leave the drone-level fields alone |
| NetworkDrone.SameRepliesAsWifiDevice | AR.Network/ARDrone.cs:259-274 | for any frame other than an Ack on `11 \| 0x80`, the earlier session sends the same datagrams, uses the same sequence numbers and stops or continues like `ARWifiDevice` |
| NetworkDrone.NoAckMatching | AR.Network/ARDrone.cs:414-454 | its receive loop never touches the pending list or the delivered log |
| NetworkDrone.PingTickSends | AR.Network/ARDrone.cs:378-412 | when sends go out, a tick sends the timestamp, then `CmdAllSettings` whenever it encodes: there is no countdown |
| NetworkDrone.PingLoopSends | AR.Network/ARDrone.cs:378-412 | n ticks send n timestamps, plus n `CmdAllSettings` when it encodes |
| NetworkDrone.LegacyDrone.constructor | AR.Network/ARDrone.cs:221-224 | the session starts with the initial telemetry |
| NetworkDrone.LegacyDrone.HandleIfCommandTypeReceived | AR.Network/ARDrone.cs:276-348 | the new telemetry is `CommandDispatched` of the old |
| NetworkDrone.LegacyDrone.HandleFrame | AR.Network/ARDrone.cs:427-432 | the new session is `Handled` of the old |
| NetworkDrone.LegacyDrone.ProcessDatagram | AR.Network/ARDrone.cs:422-439 | the inner loop, decoding with `Decode` as written: the new session is `ReceivedFrom` of the old, from index 0 |
| NetworkDrone.LegacyDrone.ReceiveContinuous | AR.Network/ARDrone.cs:414-454 | the new session is `ReceivedAll` of the old |
| NetworkDrone.LegacyDrone.PingTick | AR.Network/ARDrone.cs:384-395 | the new link is `PingTicked` of the old |
| NetworkDrone.LegacyDrone.PingTask | AR.Network/ARDrone.cs:378-412 | the new link is `PingedAll` of the old |
| ARNetwork.FirstMatch | AR.Network/ARNetwork.cs:93 | the first drone whose address compares equal, or none at all |
| ARNetwork.FoundAddsOnSuccess | AR.Network/ARNetwork.cs:87-105 | a found event connects a new session only when no drone matches; `Drones` then gains exactly `Drone(session, parsed address)` when `Connect` returns "" and is otherwise unchanged |
| ARNetwork.LostRemovesFirstMatch | AR.Network/ARNetwork.cs:107-118 | a lost event removes and disposes exactly the first match; with none, only the parse counter changes |
| ARNetwork.DisposeIdempotent | AR.Network/ARNetwork.cs:62-72 | disposing twice is disposing once, and afterwards no event changes anything |
| ARNetwork.EventsKeepValid | AR.Network/ARNetwork.cs:87-118 | both events keep every stored address and session older than the counters |
| ARNetwork.ReferenceNeverMatches | AR.Network/ARNetwork.cs:87-118 | as written: a freshly parsed address matches no drone, so every found event connects anew and no lost event removes anything |
| ARNetwork.ReferenceDuplicates | AR.Network/ARNetwork.cs:87-105 | one drone announced twice is in `Drones` twice |
| ARNetwork.ValueKeepsDistinct | AR.Network/ARNetwork.cs:87-105 | corrected: compared by value, found events never put two drones with one address in `Drones` |
| ARNetwork.ValueLostRemoves | AR.Network/ARNetwork.cs:107-118 | corrected: a lost event for a drone in `Drones` removes and disposes it |
| ARNetwork.Network.constructor | AR.Network/ARNetwork.cs:36-56 | an empty collection with the handlers subscribed |
| ARNetwork.Network.OnServiceFound | AR.Network/ARNetwork.cs:87-105 | the new state is `Found` of the old |
| ARNetwork.Network.OnServiceLost | AR.Network/ARNetwork.cs:107-118 | the new state is `Lost` of the old |
| ARNetwork.Network.Dispose | AR.Network/ARNetwork.cs:62-72 | the new state is `Disposed` of the old |
| StringHelper.Replaced | AR.Generator/StringHelper.cs:40-41 | each character that is not an ASCII letter or digit becomes '_' and the rest are kept |
| StringHelper.Tokens | AR.Generator/StringHelper.cs:42 | the split pieces are non-empty and hold no '_' |
| StringHelper.ToCamelCase | AR.Generator/StringHelper.cs:38-56 | the builder loop returns `Camel` of the input |
| StringHelper.CamelContents | AR.Generator/StringHelper.cs:38-56 | the result is the input's letters and digits, in order, with some letters upper-cased, and nothing else |
| StringHelper.CamelOfSeparators | AR.Generator/StringHelper.cs:38-56 | a string without letters or digits gives "" |
| StringHelper.CamelIdempotent | AR.Generator/StringHelper.cs:38-56 | camel-casing a camel-cased name with a capital first letter changes nothing |
| StringHelper.TrimStart | AR.Generator/StringHelper.cs:34 | no leading whitespace remains, the result is a suffix, and it is empty only for all-whitespace input |
| StringHelper.TrimEnd | AR.Generator/StringHelper.cs:34 | no trailing whitespace remains, and the result is a prefix |
| StringHelper.TrimEndCut | AR.Generator/StringHelper.cs:34 | everything `TrimEnd` cuts off is whitespace |
| StringHelper.WordsTrim | AR.Generator/StringHelper.cs:34 | trimming both ends keeps the whitespace-separated words |
| StringHelper.CollapsedShape | AR.Generator/StringHelper.cs:34 | collapsing keeps the end characters and the visible characters, and leaves no two whitespace side by side |
| StringHelper.CleanUpXmlIsClean | AR.Generator/StringHelper.cs:32-35 | the result has no whitespace at either end and none doubled, and keeps the visible characters of the input with newline markers turned to spaces |
| StringHelper.WordsShape | AR.Generator/StringHelper.cs:34 | every word the whitespace runs separate is non-empty and holds no whitespace |
| StringHelper.CleanUpXmlWords | AR.Generator/StringHelper.cs:31-35 | no backslash-n marker remains, the only whitespace left is ' ', and the result is exactly the whitespace-separated words of the marker-replaced text joined by single spaces |
| CommandArgModel.SizeMatchesPacker | AR.Generator/Models/CommandArgModel.cs:62-95 | for each fixed-width type the generated size is the decimal width the packer writes, and the bytes consumed are that size |
| CommandArgModel.StringConsumesTerminator | AR.Generator/Models/CommandArgModel.cs:90-94 | a string's size is its null-guarded length, and it consumes that plus 1 |
| CommandArgModel.PackClassTypeRule | AR.Generator/Models/CommandArgModel.cs:37-60 | enums are packed as `int` and named after the argument; every other type packs as its own type |
| CommandArgModel.ReaderMatchesPackType | AR.Generator/Models/CommandArgModel.cs:97-151 | `UsesBitConverter` is false exactly for byte, sbyte and string; where true, the reader is the one for the packed type |
| CommandArgModel.NamesAndSummary | AR.Generator/Models/CommandArgModel.cs:35-36 | the constructor throws exactly when the description is `null` (no null check before `CleanUpXml`); otherwise the property name holds only letters and digits, and the summary is clean |
| CommandModel.Accumulate | AR.Generator/Models/CommandModel.cs:42-58 | the `foreach` builds exactly the argument models of the specification, stopping with `None` when an argument's constructor throws, and otherwise its enum models and size expression |
| CommandModel.Build | AR.Generator/Models/CommandModel.cs:33-60 | the constructor builds `Spec` of the project, class and command, and throws (`None`) where an argument's constructor throws |
| CommandModel.ArgModelsOneToOne | AR.Generator/Models/CommandModel.cs:46-49 | the argument models are built exactly when every argument has a description, and then `Args` has one model per argument, each the model of that argument |
| CommandModel.EnumsAreEnumArgs | AR.Generator/Models/CommandModel.cs:51-54 | `Enums` comes from enum arguments only, and every enum argument has an entry |
| CommandModel.HasEnumsIffEnumArg | AR.Generator/Models/CommandModel.cs:68 | `HasEnums` holds exactly when the command has an enum argument |
| CommandModel.FixedSizeExpression | AR.Generator/Models/CommandModel.cs:42-59 | without strings, `Size` is "0" then " + " and the decimal packer width of each argument |
| CommandModel.FixedSizeTotal | AR.Generator/Models/CommandModel.cs:42-59 | without strings, the terms of `Size` are decimal numbers that sum to the bytes the packer writes |
| CommandModel.SummaryIsClean | AR.Generator/Models/CommandModel.cs:40 | `Summary` is "" when the comment or description is missing, and always clean |
| CommandModel.NamesAreIdentifiers | AR.Generator/Models/CommandModel.cs:36-39 | the class name is "Cmd" then letters and digits; the namespace is the prefix and two dot-free segments |

## Findings

| source | as written | input that shows it | evidently intended | confidence | as-written member | corrected member |
|---|---|---|---|---|---|---|
| AR.Network/ARFrame.cs:67-89 | the declared frame size is not checked against the header size | a DataWithAck header declaring size 0: the index does not move, so the receive loop spins on that datagram | reject a declared size below 7 as malformed | not executed | ARFrame.ZeroSizeFrameMakesNoProgress | ARFrame.DecodeChecked |
| AR.Commands/ARCommandIdentifier.cs:78-95 | `success` starts true and is cleared only when 4 bytes remain | an identifier into a 2-byte buffer: true, nothing written | false when fewer than 4 bytes remain | not executed | ARCommandIdentifier.EncodeWithoutRoom | ARCommandIdentifier.EncodeChecked |
| AR.Common/ARPacker.cs:110-124 | the characters are written before the terminator is checked | "hi" into a 2-byte buffer: false, yet both bytes written and the index at 2 | write nothing unless characters and terminator both fit | not executed | ARPacker.StringAppendNotAtomic | ARPacker.AppendStringAtomic |
| AR.App/Frame.cs:58-74 | the three byte fields bind to `Append(short)`, so the header takes 10 bytes in a `Size`-byte array | any encodable frame: `BlockCopy` throws | the 7-byte header then the payload | not executed | AppFrame.Encode | AppFrame.DecodesNetworkEncoding |
| AR.App/Command.cs:32-47 | the two byte ids bind to `Append(short)`, so the ids take 6 bytes in a `Size`-byte array | any command: `BlockCopy` throws | the 4-byte identifier then the data | not executed | AppCommand.Encode | AppCommand.EncodeIntended |
| AR.App/Command.cs:14-30 | all three ids are read from `buffer[offset]` | the bytes of command (1, 4, 5) decode to (1, 1, 1) | feature, class and a 2-byte command id from bytes 0, 1 and 2-3 | not executed | AppCommand.DecodeLosesIds | AppCommand.IntendedRoundTrip |
| AR.Network/ARNetwork.cs:87-118 | addresses are compared with `==`, which compares `IPAddress` objects by reference | "192.168.42.1" found twice: two drones with one address; a lost event never removes | compare addresses by value | not executed | ARNetwork.ReferenceDuplicates | ARNetwork.ValueKeepsDistinct |

The receive loops (`ARWifiDevice.ReceivedFrom`, `NetworkDrone.ReceivedFrom`) decode with
`ARFrame.Decode` as written. `ARFrame.DecodeChecked` is the corrected decoder, and
`ARFrame.DecodeCheckedAgrees` shows that the two agree on every frame whose declared size is at
least the header size. Only a declared size of 0 or less makes the loop as written go wrong.
`ARWifiDevice.ReceiveSplitsFrames` covers every datagram made of encoded frames. `ARNetwork`
takes the comparison as a parameter, so both behaviours are modelled.

## Left out

- Floating point: float and double fields are carried as their IEEE bit patterns. The `(float)`
  cast of the altitude in AR.Network/ARDrone.cs is the parameter `narrow`. The DotSpatial unit
  conversions of AR.Device/ARBebop.cs are not modelled.
- Round-trip time: the buffer-1 timestamp is stored as `echo`. The `Stopwatch` arithmetic that
  turns it into `RoundTripTime` is left out, because it is clock arithmetic on floating point.
- The JSON handshake, TCP, name resolution and socket creation of `Connect` are collapsed into
  the `Handshake` input. The JSON encoding itself is not modelled.
- The command codec's registry and each generated command's own `Encode`/`Decode` are a `Codec`
  parameter. `ARCommandSize` overrides are left out. Generated command types other than those the
  drone classes react to are one `Other` body.
- Concurrency: the receive loop, ping loop and reliable sends run interleaved in the source.
  Here each loop runs over explicit inputs. The datagrams that arrive during each 500 ms ack wait
  are an input, and the timeout is not modelled as time.
- Cancellation tokens are modelled by the `receiving`/`pinging` flags that `Dispose` clears.
  Exceptions are modelled by the state in which the loop stops.
- A second `Connect` on a session that is already connected is not modelled; the model always
  opens a fresh client.
- `NetworkDrone.LegacyDrone` reuses `ARWifiDevice.WifiDevice.Connect` and `Dispose`, because
  AR.Network/ARDrone.cs:148-218 is the same code. The reset of the ping counter there is harmless,
  since the earlier ping loop never reads the counter.
- `ReturnHomeBehavior`'s numeric values and the order of `CmdHomeTypeChanged.TypeEnum` are
  assumed, because the generated enum is not part of this model.
- `ToUpper` and `\s` are modelled for ASCII only. Culture-sensitive case mapping and Unicode
  whitespace are left out.
- The `AR.App` decoders take a `nat` offset, so a negative offset is not modelled.
- ARPacker.Append, ARPacker.AppendBytes, ARPacker.AppendString: the index is a `nat`, so the
  exception a negative index raises in the source is not modelled.
- ARCommandIdentifier.Encode, ARCommandIdentifier.Decode: the index is a `nat`, so the exception
  a negative index raises in the source is not modelled.
- ARWifiDevice.ReceivedFrom: a frame whose declared size is 0 or less is handled once, and then
  the model stops receiving. In the source a size-0 frame is handled again and again forever. A
  negative size moves the index backwards, after which the source may decode the same bytes
  again, throw (ending the loop), loop forever, or find no frame at the new index, end the
  datagram normally and go on receiving. The model stops receiving in every one of these cases.
- ARWifiDevice.WifiDevice.ProcessDatagram, ARWifiDevice.WifiDevice.ReceiveContinuous: follow
  `ARWifiDevice.ReceivedFrom`, so they share its handling of a declared size of 0 or less.
- NetworkDrone.ReceivedFrom, NetworkDrone.LegacyDrone.ProcessDatagram,
  NetworkDrone.LegacyDrone.ReceiveContinuous: the same as `ARWifiDevice.ReceivedFrom` for a
  declared size of 0 or less.
- XML names are assumed present: `XmlArg.name`, the command name and the project and class names
  are plain strings. In the source a `null` name throws in `ToCamelCase`
  (CommandArgModel.cs:35, CommandModel.cs:36 and :39); the model does not capture that crash.
- `CommandEnumModel`'s own contents and the `XmlArgType` enum are not part of this model. An enum
  model is the argument it is built from.
- AR.Generator/Program.cs (file I/O and templating) and `Console` output are left out.
- The `AR.App` `NextSequenceNumber` is the same `SequenceTable` as the network one, used through
  a separate instance.
- `ARNetwork` keeps sessions as values (an identity number and an address). The session's
  own behaviour is in `ARWifiDevice`.
