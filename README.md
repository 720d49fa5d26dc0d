# Host messaging stack and control compiler, modelled in Dafny

This project models the host side of a motor-controller toolkit: the
wire codec, the serial transport, the request/acknowledge dispatcher and
the offline control compiler. Each part is proved against a
specification.

- **Wire codec** (`app/core/protocol.py`). It covers CRC-16/CCITT-FALSE,
  Consistent Overhead Byte Stuffing (COBS), the fifteen message types,
  and `Packet.serialize` / `Packet.parse`. The frame is a 7-byte
  little-endian header, the payload, a CRC, COBS stuffing and a 0x00
  delimiter (modules `Crc`, `Cobs`, `Protocol`; shared vocabulary in
  `Common`).
- **Serial transport** (`app/core/serial_interface.py`). This is the
  class `Transport.SerialInterface`:
  - its TX queue;
  - one pass each of the TX and RX loops;
  - the in-place splitting of the receive buffer on 0x00 delimiters;
  - the `stats` counters.
- **Dispatcher** (`app/core/dispatcher.py`). This is the class
  `Dispatch.Dispatcher`:
  - the 16-bit wrapping sequence counter;
  - the `pending_acks` table, with a retry budget of 3 and a 0.2 s
    timeout;
  - routing of received packets by type, with a heartbeat timestamp;
  - one pass of the maintenance loop, which resends, gives up, and
    fires the level-triggered 1 s watchdog.

  Callback invocations are recorded as a list of events.
- **Control compiler** (`app/core/algo_sdk.py`, `ControlCompiler`). This
  is the class `Compiler.ControlCompiler`:
  - the append-only log and its time window;
  - step-response metrics and the first-order model estimate;
  - bucketing of the log into the model table;
  - the clamped PID simulation;
  - the 125-point gain grid search with first-minimum selection;
  - the positional feedforward accumulator;
  - profile compilation, where the profile shares the live feedforward
    list.

Numbers are Dafny `real`s. The numpy functions `sqrt`, `std`,
`percentile` and `median` are given as function values in a `Numerics`
record; only mean and maximum are defined exactly. Time, serial I/O
results and callbacks are parameters or recorded events.

## Model

| member | source | states |
|---|---|---|
| Common.Le16 | app/core/protocol.py:143 | `struct.pack('<H', v)` yields two bytes that read back as `v` |
| Common.ReadLe16 | app/core/protocol.py:164 | `struct.unpack('<H', ...)` of two bytes lies in [0, 0xFFFF] |
| Crc.Crc16 | app/core/protocol.py:26-37 | the CRC of any input lies in [0, 0xFFFF] |
| Crc.Shift | app/core/protocol.py:31-36 | one inner-loop step on the 16-bit register: shift left, XOR 0x1021 when bit 15 was set, bits above 15 dropped |
| Crc.ShiftN | app/core/protocol.py:31-36 | n inner-loop steps; a byte takes the eight of `range(8)` |
| Crc.AddByte | app/core/protocol.py:30-36 | one outer iteration: the byte XORed into the high half, then eight steps |
| Crc.Register | app/core/protocol.py:27-37 | the register from 0xFFFF after every byte of the input, folded in input order |
| Crc.FoldByte | app/core/protocol.py:30-36 | the inner loop (XOR into the high byte, eight conditional shifts by the polynomial 0x1021) folds one byte into the register as the specification function does |
| Crc.ComputeCrc16 | app/core/protocol.py:26-37 | the nested loop computes `Crc16(data)`, always in [0, 0xFFFF] |
| Crc.RegisterPrefix | app/core/protocol.py:29-36 | each loop iteration extends the processed prefix by one byte |
| Crc.RegisterSnoc | app/core/protocol.py:29-36 | appending a byte folds it into the register |
| Crc.EmptyInput | app/core/protocol.py:28 | the CRC of the empty input is the initial value 0xFFFF |
| Crc.EightShifts | app/core/protocol.py:31-36 | the eight inner iterations are eight single shifts |
| Crc.AddByteValue | app/core/protocol.py:30-36 | a byte step's value follows from its eight shifts |
| Crc.DigitStepsLow | app/core/protocol.py:29-36 | register values after the digits "1", "2", "3" |
| Crc.DigitStepsMid | app/core/protocol.py:29-36 | register values after the digits "4", "5", "6" |
| Crc.DigitStepsHigh | app/core/protocol.py:29-36 | register values after the digits "7", "8", "9" |
| Crc.CheckValue | app/core/protocol.py:26-37 | the CRC of ASCII "123456789" is the catalogued check value 0x29B1 |
| Cobs.EncodeStepZero | app/core/protocol.py:48-52 | a zero byte back-patches the open code with the run length plus one and opens a new placeholder |
| Cobs.EncodeStepFull | app/core/protocol.py:53-60 | the 254th non-zero byte closes the block with code 0xFF |
| Cobs.EncodeStepByte | app/core/protocol.py:53-55 | any other non-zero byte is appended to the open block |
| Cobs.EncodeFinish | app/core/protocol.py:62-63 | the final back-patch completes the encoding |
| Cobs.CobsEncode | app/core/protocol.py:39-63 | the in-place loop with back-patching computes `Encode(data)`, and the output contains no 0x00 |
| Cobs.EncodeFromNoZero | app/core/protocol.py:39-63 | every code is in 1..0xFF and every copied byte is non-zero, so the encoding has no 0x00 |
| Cobs.EncodeNoZero | app/core/protocol.py:39-63 | `cobs_encode(x)` never contains 0x00 |
| Cobs.EncodeFromLength | app/core/protocol.py:43-62 | the output length of the block recursion is input plus one plus the number of full blocks |
| Cobs.EncodeLength | app/core/protocol.py:43-62 | `len(cobs_encode(x)) == len(x) + 1 + (times the code reached 0xFF)` |
| Cobs.FullBlocks | app/core/protocol.py:55-60 | how many times the code reaches 0xFF: once per 254 consecutive non-zero bytes, the count restarting at each zero |
| Cobs.FullBlocksBound | app/core/protocol.py:56-60 | the code reaches 0xFF at most once per 254 input bytes |
| Cobs.EncodeLengthBound | app/core/protocol.py:39-63 | the overhead lies between 1 and 1 + len(x)/254 bytes |
| Cobs.LongRunAfter | app/core/protocol.py:53-60 | a run of 254 non-zero bytes stays a run when a prefix is added |
| Cobs.LongRunPastZero | app/core/protocol.py:48-60 | a long run after a zero is a long run of the whole input |
| Cobs.LongRunAtStart | app/core/protocol.py:53-60 | a run completed at the start of the input is a long run |
| Cobs.FullBlockNeedsLongRun | app/core/protocol.py:56-60 | a full block is only ever closed by 254 consecutive non-zero bytes |
| Cobs.EncodeLengthShortRuns | app/core/protocol.py:39-63 | without a run of 254 non-zero bytes the encoding is exactly one byte longer |
| Cobs.DecodeFromShorter | app/core/protocol.py:99-117 | decoding from position i yields fewer bytes than remain after i |
| Cobs.DecodeShorter | app/core/protocol.py:99-117 | for non-empty input the decoded output is strictly shorter; empty input decodes to empty |
| Cobs.DecodeStep | app/core/protocol.py:102-115 | one block of the decoder loop appends its chunk and implicit zero |
| Cobs.CobsDecodeSimple | app/core/protocol.py:99-117 | the decoder loop is total and computes `Decode(data)` |
| Cobs.CobsDecode | app/core/protocol.py:65-97 | `cobs_decode` returns exactly `_cobs_decode_simple(data)`, strictly shorter than non-empty input |
| Cobs.DecodeTruncatedBlock | app/core/protocol.py:110-112 | a block whose code points past the end yields just the bytes present |
| Cobs.DecodeStopsAtZeroCode | app/core/protocol.py:105-107 | decoding stops at a 0x00 code, whatever follows |
| Cobs.DecodeFromBlock | app/core/protocol.py:103-115 | a complete block decodes to its chunk, its implicit zero, then the rest |
| Cobs.DecodeFromShift | app/core/protocol.py:102-115 | decoding from an offset depends only on the bytes from there on |
| Cobs.DecodeBlock | app/core/protocol.py:103-115 | a code byte, its chunk and a tail decode to chunk, zero (when the code is below 0xFF and a tail follows) and the tail's decoding |
| Cobs.DecodeEncodeFrom | app/core/protocol.py:39-117 | decoding the block recursion gives back the open run followed by the rest |
| Cobs.EncodeFromNotEmpty | app/core/protocol.py:45 | the encoding always holds at least a code byte |
| Cobs.EncodeFromZero | app/core/protocol.py:48-52 | the encoding's shape at a zero byte |
| Cobs.EncodeFromFull | app/core/protocol.py:53-60 | the encoding's shape when a block fills up |
| Cobs.EncodeFrom | app/core/protocol.py:39-63 | the encoding block by block: a zero or the 254th non-zero byte closes the open block with its code, and the last block is closed at the end of the input |
| Cobs.Encode | app/core/protocol.py:39-63 | `cobs_encode(data)`: the block encoding started with an empty open block |
| Cobs.Close | app/core/protocol.py:49-52 | the back-patch `out[code_idx] = code` followed by a new 0x00 placeholder at the end |
| Cobs.DecodeFrom | app/core/protocol.py:99-117 | the decoder from position i: stop at the end or at a 0x00 code; otherwise copy up to code − 1 available bytes and add a 0x00 when the code is below 0xFF and input remains |
| Cobs.Decode | app/core/protocol.py:99-117 | `_cobs_decode_simple(data)`: decoding from position 0 |
| Cobs.DecodeAfterZero | app/core/protocol.py:99-117 | a block closed by a zero decodes back to its run and the zero |
| Cobs.DecodeAfterFullBlock | app/core/protocol.py:99-117 | a full block decodes back to its 254 bytes with no zero |
| Cobs.DecodeEncode | app/core/protocol.py:39-117 | `_cobs_decode_simple(cobs_encode(x)) == x` for every x |
| Protocol.MsgType.Code | app/core/protocol.py:6-21 | every message type has a code in 0x01..0x0F |
| Protocol.FromCode | app/core/protocol.py:186-191 | `MsgType(value)` succeeds exactly for 0x01..0x0F and returns the type with that code |
| Protocol.FromCodeOfCode | app/core/protocol.py:6-21 | every type is recovered from its code, so codes are distinct |
| Protocol.Frame | app/core/protocol.py:131-143 | the raw frame is 9 bytes longer than the payload |
| Protocol.Packable | app/core/protocol.py:131-136 | the fields `struct.pack('<BBHBH', ...)` accepts: sequence number and payload length below 65536, flags below 256, none negative |
| Protocol.RawFrame | app/core/protocol.py:131-143 | `header + body + pack('<H', crc)` for a packet, declaring its own payload length |
| Protocol.StripDelimiter | app/core/protocol.py:150-151 | one trailing 0x00, when present, is removed |
| Protocol.Decoded | app/core/protocol.py:150-157 | the COBS decoding of the input without its delimiter |
| Protocol.CrcMatches | app/core/protocol.py:163-167 | the last two bytes, read LE16, equal the CRC of the rest |
| Protocol.DeclaredLength | app/core/protocol.py:172 | the payload length field at offset 5, read LE16 |
| Protocol.Accepted | app/core/protocol.py:159-191 | the conjunction of the checks: at least 9 bytes, CRC matches, version 1, enough payload, known type |
| Protocol.Serialize | app/core/protocol.py:128-145 | serialization fails exactly when a header field is out of `struct.pack` range; otherwise the output is at least 11 bytes, ends with 0x00 and has no other 0x00 |
| Protocol.Parse | app/core/protocol.py:147-193 | an accepted packet is packable and its payload fits in the decoded frame |
| Protocol.Check | app/core/protocol.py:159-193 | an accepted packet is packable and its payload fits in the frame |
| Protocol.CheckAccepts | app/core/protocol.py:159-193 | parse succeeds exactly when every check passes, and returns the header's type, sequence number and flags with the first `plen` payload bytes |
| Protocol.CheckErrorOrder | app/core/protocol.py:159-191 | the error raised is the first failing check: too short, CRC mismatch, version not 1, truncated payload, unknown type (each an iff) |
| Protocol.FrameFields | app/core/protocol.py:131-143 | every header field reads back at its offset and the CRC matches |
| Protocol.ParseOfFrame | app/core/protocol.py:128-193 | parsing a stuffed, delimited frame yields its fields and the first `declared` payload bytes |
| Protocol.ParseSerialize | app/core/protocol.py:128-193 | `parse(serialize(p)) == p` for every packable packet |
| Protocol.ParseDelimiterOptional | app/core/protocol.py:150-151 | a frame parses the same with or without its trailing delimiter |
| Protocol.ParseCutsLongPayload | app/core/protocol.py:177-184 | a payload longer than declared is accepted and cut to the declared length |
| Transport.FirstZero | app/core/serial_interface.py:108-110 | `index(b'\x00')` is a 0x00 position, or the buffer length when there is none |
| Transport.FirstZeroIsFirst | app/core/serial_interface.py:110 | no 0x00 comes before the found index |
| Transport.CutSegments | app/core/serial_interface.py:110-118 | cutting at the first delimiter takes one segment off the front |
| Transport.CutRemainder | app/core/serial_interface.py:110-118 | cutting at the first delimiter leaves the same final remainder |
| Transport.CutAtZero | app/core/serial_interface.py:115-118 | the buffer is the frame, the delimiter and the rest |
| Transport.SplitJoin | app/core/serial_interface.py:106-118 | the segments rejoined with delimiters, plus the remainder, give back the buffer |
| Transport.RemainderNoZero | app/core/serial_interface.py:108 | after processing, the buffer holds no 0x00 |
| Transport.RemainderIsTail | app/core/serial_interface.py:106-118 | the remainder is a suffix of the buffer, shorter exactly when the buffer held a delimiter |
| Transport.RemainderFollowsDelimiter | app/core/serial_interface.py:106-118 | a shortened remainder starts right after a 0x00, so it is what follows the last delimiter |
| Transport.SegmentsNoZero | app/core/serial_interface.py:115 | no segment contains 0x00 |
| Transport.Segments | app/core/serial_interface.py:108-118 | the frames `_process_buffer` cuts, in order: each stretch before a 0x00 delimiter |
| Transport.Remainder | app/core/serial_interface.py:108-118 | what stays in `rx_buffer`: the bytes after the last delimiter, or all of it without one |
| Transport.Join | app/core/serial_interface.py:115-118 | the segments each followed by their delimiter, the inverse of the cutting |
| Transport.Yield | app/core/serial_interface.py:120-125 | the packets of one segment: none when it is empty or fails to parse, else its parsed packet |
| Transport.Fails | app/core/serial_interface.py:126-131 | one error for a non-empty segment that fails to parse, none otherwise |
| Transport.Parsed | app/core/serial_interface.py:108-125 | the packets of all segments, in buffer order |
| Transport.Rejected | app/core/serial_interface.py:108-131 | the errors of all segments |
| Transport.NonEmpty | app/core/serial_interface.py:120 | how many segments are non-empty |
| Transport.ParsedSnoc | app/core/serial_interface.py:120-125 | segments are parsed in buffer order |
| Transport.RejectedSnoc | app/core/serial_interface.py:126-131 | failures accumulate segment by segment |
| Transport.EachSegmentOnce | app/core/serial_interface.py:120-131 | every non-empty segment counts exactly once, as a packet or as an error |
| Transport.EmptySegmentNoPacket | app/core/serial_interface.py:120 | an empty segment (adjacent delimiters) yields no packet |
| Transport.EmptySegmentNoError | app/core/serial_interface.py:120 | an empty segment counts no error |
| Transport.ParsedCons | app/core/serial_interface.py:120-125 | the first segment's packet comes before the others' |
| Transport.FirstZeroAt | app/core/serial_interface.py:110 | the first 0x00 is found at a position with none before it |
| Transport.CutFrame | app/core/serial_interface.py:110 | a delimited frame is cut at its own delimiter |
| Transport.StreamSegments | app/core/serial_interface.py:106-118 | a stream of delimited frames splits back into the frames without delimiters |
| Transport.StreamLeavesNothing | app/core/serial_interface.py:106-118 | a stream of complete frames leaves an empty buffer |
| Transport.ParsedFrames | app/core/serial_interface.py:120-125 | frames that each parse to one packet yield those packets in order |
| Transport.YieldOfSerialized | app/core/serial_interface.py:120-125 | a serialized packet is a delimited frame that parses back to the packet |
| Transport.Frames | app/core/serial_interface.py:63-81 | one frame per packet |
| Transport.StreamRoundTrip | app/core/serial_interface.py:76-131 | packets serialized and written back to back are received, in order, exactly as sent, leaving nothing buffered |
| Transport.FramesSerialized | app/core/serial_interface.py:77 | each frame is its packet's serialization |
| Transport.SplittingStep | app/core/serial_interface.py:108-118 | one cut preserves the splitting invariant |
| Transport.SplittingDone | app/core/serial_interface.py:108 | with no delimiter left, the cut segments are all segments and the buffer is the remainder |
| Transport.AccountedStep | app/core/serial_interface.py:120-131 | one segment adds its packets to `rx_packets` and the callback's list and its failures to `rx_errors` |
| Transport.SerialInterface.constructor | app/core/serial_interface.py:12-34 | closed, idle, empty queue and buffer, all counters zero, no callback |
| Transport.SerialInterface.Open | app/core/serial_interface.py:36-54 | success sets running and connected with the port open; failure clears connected only |
| Transport.SerialInterface.Close | app/core/serial_interface.py:56-61 | afterwards not running, not connected, port closed |
| Transport.SerialInterface.Send | app/core/serial_interface.py:63-64 | the packet joins the back of the TX queue |
| Transport.SerialInterface.SetCallback | app/core/serial_interface.py:66-67 | a receive callback is set |
| Transport.SerialInterface.TxStep | app/core/serial_interface.py:69-85 | the front packet is popped; when the port is open it is written and `tx_packets` grows by 1 and `bytes_sent` by its length; a pack or write error clears connected; an idle or empty queue changes nothing |
| Transport.SerialInterface.RxStep | app/core/serial_interface.py:87-104 | received bytes are counted in `bytes_received`, appended, and the buffer processed; a read error clears connected |
| Transport.SerialInterface.Deliver | app/core/serial_interface.py:120-131 | a non-empty segment is parsed once: success counts a packet and calls the callback if set, failure counts an error |
| Transport.SerialInterface.TakeSegment | app/core/serial_interface.py:108-131 | one pass of the loop shortens the buffer and keeps the splitting and accounting invariants |
| Transport.SerialInterface.ProcessBuffer | app/core/serial_interface.py:106-131 | the buffer becomes what follows its last delimiter; `rx_packets`, `rx_errors` and the callback's packets account for every segment in order |
| Dispatch.NextSeq | app/core/dispatcher.py:60-62 | the next sequence number lies in [0, 65535] |
| Dispatch.SeqAfterIsSum | app/core/dispatcher.py:60-62 | after n calls the counter is (c + n) mod 65536, so 0 follows 65535 |
| Dispatch.ModSucc | app/core/dispatcher.py:61 | masking after each increment equals masking once |
| Dispatch.SeqRepeats | app/core/dispatcher.py:60-62 | two calls hand out the same number exactly when they are a multiple of 65536 calls apart |
| Dispatch.ModShift | app/core/dispatcher.py:61 | adding d leaves a residue unchanged exactly when d is a multiple of 65536 |
| Dispatch.SeqAfter | app/core/dispatcher.py:60-62 | the counter after n calls of `_next_seq` |
| Dispatch.Swept | app/core/dispatcher.py:102-108 | a resent entry keeps its packet and callback, loses one retry and restarts its timer; any other entry is unchanged |
| Dispatch.Expired | app/core/dispatcher.py:102 | an entry is expired when `now - ts > 0.2` |
| Dispatch.Exhausted | app/core/dispatcher.py:102-108 | expired with no retry left: it is given up on |
| Dispatch.Resent | app/core/dispatcher.py:102-106 | expired with retries left: it is resent |
| Dispatch.Fate | app/core/dispatcher.py:101-113 | over a sequence of sweep times, how many times an entry is resent and whether it is given up on |
| Dispatch.ResendBudget | app/core/dispatcher.py:102-113 | over any sequence of sweeps an entry is resent at most `retry` times, and exactly that many times before it is given up |
| Dispatch.FreshEntryBudget | app/core/dispatcher.py:53-113 | a new entry is retransmitted at most 3 times before its failure callback |
| Dispatch.LookupSnoc | app/core/dispatcher.py:23 | the newest entry answers for its key |
| Dispatch.Lookup | app/core/dispatcher.py:87 | the entry for a key in the insertion-ordered table, if any |
| Dispatch.UniqueKeys | app/core/dispatcher.py:23 | a dict holds each key once |
| Dispatch.RetriesInRange | app/core/dispatcher.py:53 | every entry's retry count lies in [0, 3] |
| Dispatch.Without | app/core/dispatcher.py:88 | `pending_acks.pop(k)`: the table without key k, in order |
| Dispatch.Put | app/core/dispatcher.py:50-55 | `pending_acks[k] = v`: replaced in place when present, appended otherwise |
| Dispatch.UniqueSnoc | app/core/dispatcher.py:23 | an appended key keeps the keys unique exactly when it was absent |
| Dispatch.LookupWithout | app/core/dispatcher.py:88 | `pop(k)` removes key k and nothing else |
| Dispatch.WithoutAbsent | app/core/dispatcher.py:87 | removing an absent key changes nothing |
| Dispatch.WithoutValid | app/core/dispatcher.py:88 | removal keeps keys unique and retries in range |
| Dispatch.Replace | app/core/dispatcher.py:50-55 | replacing keeps every position and swaps in the new value at the key |
| Dispatch.LookupReplace | app/core/dispatcher.py:50-55 | after replacement the key maps to the new value, others unchanged |
| Dispatch.ReplaceUnique | app/core/dispatcher.py:50-55 | replacement keeps keys unique |
| Dispatch.LookupPut | app/core/dispatcher.py:50-55 | `pending_acks[seq] = v` maps seq to v and leaves every other key alone |
| Dispatch.PutValid | app/core/dispatcher.py:50-55 | insertion keeps keys unique and retries in range |
| Dispatch.Scanned | app/core/dispatcher.py:101-106 | the scan updates every entry in place, in table order |
| Dispatch.FailuresPresent | app/core/dispatcher.py:101-108 | a key given up on is in the table with an expired, exhausted entry |
| Dispatch.FailuresComplete | app/core/dispatcher.py:101-108 | every expired, exhausted entry is given up on |
| Dispatch.FailuresDistinct | app/core/dispatcher.py:101-108 | no key is given up on twice |
| Dispatch.SweepPartition | app/core/dispatcher.py:102-108 | every expired entry is either resent or given up on, never both |
| Dispatch.LookupScanned | app/core/dispatcher.py:101-106 | after the scan each key maps to its swept entry |
| Dispatch.LookupSurvivors | app/core/dispatcher.py:110-113 | a sweep adds no key |
| Dispatch.SweepEntry | app/core/dispatcher.py:97-113 | after a sweep a key is gone exactly when it was exhausted; otherwise it is untouched (not expired) or has retry − 1 and ts = now |
| Dispatch.SweepStep | app/core/dispatcher.py:101-108 | the scan loop extends the retry and failure lists one entry at a time |
| Dispatch.RemoveAllSnoc | app/core/dispatcher.py:110-111 | a kept entry stays at the end |
| Dispatch.CallbacksSnoc | app/core/dispatcher.py:110-113 | an entry not given up on adds no callback |
| Dispatch.SweepSurvivors | app/core/dispatcher.py:101-113 | removing the failed keys from the scanned table leaves exactly the surviving entries |
| Dispatch.SweepCallbacks | app/core/dispatcher.py:110-113 | the failure callbacks are those of the exhausted entries with a callback, in table order, each told False |
| Dispatch.Retries | app/core/dispatcher.py:101-106 | the packets a sweep resends, in table order |
| Dispatch.Failures | app/core/dispatcher.py:101-108 | the keys a sweep gives up on, in table order |
| Dispatch.FailEvents | app/core/dispatcher.py:110-113 | the False callbacks of the entries given up on that have a callback |
| Dispatch.Survivors | app/core/dispatcher.py:101-113 | the table after a sweep: exhausted entries removed, the others swept |
| Dispatch.RemoveAll | app/core/dispatcher.py:110-111 | the table with the listed keys popped |
| Dispatch.CallbacksOf | app/core/dispatcher.py:110-113 | the False callbacks of the listed keys, in list order |
| Dispatch.ExpiredCount | app/core/dispatcher.py:102 | how many entries are expired |
| Dispatch.SurvivorsValid | app/core/dispatcher.py:101-113 | a sweep keeps keys unique and retries non-negative |
| Dispatch.LookupRemoveAll | app/core/dispatcher.py:110-111 | removing other keys leaves a key's entry alone |
| Dispatch.HandlerCalls | app/core/dispatcher.py:73-75 | one call per telemetry handler, in registration order |
| Dispatch.Dispatcher.constructor | app/core/dispatcher.py:15-33 | registers itself as the transport's callback; empty tables, counter 0, heartbeat now |
| Dispatch.Dispatcher.RegisterHandler | app/core/dispatcher.py:35-36 | the type's handler is set, replacing any earlier one |
| Dispatch.Dispatcher.RegisterTelemetryHandler | app/core/dispatcher.py:38-39 | the handler is appended |
| Dispatch.Dispatcher.SetWatchdogCallback | app/core/dispatcher.py:41-42 | the watchdog callback is set |
| Dispatch.Dispatcher.NextSequence | app/core/dispatcher.py:60-62 | the counter becomes (old + 1) mod 65536 and is returned |
| Dispatch.Dispatcher.Send | app/core/dispatcher.py:44-58 | exactly one packet with the new sequence number is enqueued; with `need_ack` the table maps it to retry 3, ts now; otherwise the table is unchanged |
| Dispatch.Dispatcher.HandleAck | app/core/dispatcher.py:81-90 | a payload under 2 bytes or an unknown sequence changes nothing; a known one is removed and its callback told True once |
| Dispatch.Dispatcher.NotifyTelemetry | app/core/dispatcher.py:73-75 | every telemetry handler is called, in order |
| Dispatch.Dispatcher.OnPacketReceived | app/core/dispatcher.py:64-79 | any packet sets the heartbeat; ACK reaches no handler; telemetry reaches every telemetry handler; others reach their handler or are dropped |
| Dispatch.Dispatcher.ScanPending | app/core/dispatcher.py:100-108 | the scan updates entries in place and collects the packets to resend and the keys to fail |
| Dispatch.Dispatcher.FailPending | app/core/dispatcher.py:110-113 | failed keys are popped and their callbacks told False, in order |
| Dispatch.Dispatcher.Resend | app/core/dispatcher.py:115-117 | the packets to resend are enqueued in order |
| Dispatch.Dispatcher.CheckWatchdog | app/core/dispatcher.py:119-122 | the watchdog fires on every pass while the heartbeat is more than 1 s old and a callback is set |
| Dispatch.Dispatcher.Maintain | app/core/dispatcher.py:92-122 | one pass leaves the surviving entries, enqueues the resent packets, reports the failures and the watchdog |
| Compiler.MaxOf | app/core/algo_sdk.py:89 | `np.max` is an element no smaller than any other |
| Compiler.Get | app/core/algo_sdk.py:85 | `s.get(key, default)` |
| Compiler.Sum | app/core/algo_sdk.py:88 | the sum behind `np.mean` |
| Compiler.Mean | app/core/algo_sdk.py:88 | `np.mean` of a non-empty array |
| Compiler.Outputs | app/core/algo_sdk.py:85 | the output column, 0 where missing |
| Compiler.Targets | app/core/algo_sdk.py:86 | the target column, the last output where missing |
| Compiler.AllTrue | app/core/algo_sdk.py:96 | `np.all` |
| Compiler.Tracks | app/core/algo_sdk.py:87 | perfect tracking: every target equals its output |
| Compiler.MetricsOf | app/core/algo_sdk.py:84-106 | the metrics of a non-empty run: `sqrt(mean(err²))`, `max(y - r)`, time to the settling index or the whole duration, `mean(abs(err))`, `std(err)` |
| Compiler.Times | app/core/algo_sdk.py:84 | one time per sample |
| Compiler.Timed | app/core/algo_sdk.py:84 | every sample carries "t", so the `s["t"]` reads here and at lines 79, 112 and 174 do not raise `KeyError` |
| Compiler.Column | app/core/algo_sdk.py:175 | one value per sample |
| Compiler.Minus | app/core/algo_sdk.py:87 | elementwise difference of equal-length arrays |
| Compiler.AbsAll | app/core/algo_sdk.py:99 | elementwise absolute value |
| Compiler.Squares | app/core/algo_sdk.py:88 | elementwise square |
| Compiler.SumZeros | app/core/algo_sdk.py:99 | the sum of zeros is zero |
| Compiler.Errors | app/core/algo_sdk.py:84-87 | one tracking error per sample |
| Compiler.Within | app/core/algo_sdk.py:92-93 | one in-band flag per sample |
| Compiler.SettleFrom | app/core/algo_sdk.py:94-98 | the settling index lies within the samples |
| Compiler.SettleFromIsFirst | app/core/algo_sdk.py:94-98 | from the settling index on every sample is within the band, and it is the earliest such index |
| Compiler.SettleIndex | app/core/algo_sdk.py:94-98 | the scan loop finds the earliest index from which all samples are within the band |
| Compiler.ComputeMetrics | app/core/algo_sdk.py:81-107 | empty input gives nothing; otherwise RMS, overshoot, settle time, energy and jitter as defined; perfect tracking gives settle time 0 and energy 0 |
| Compiler.PerfectTracking | app/core/algo_sdk.py:81-107 | perfect tracking settles at once, has zero overshoot and zero mean absolute error |
| Compiler.FirstIndex | app/core/algo_sdk.py:94-98 | the first true flag, with none before it |
| Compiler.FirstTrue | app/core/algo_sdk.py:120-124 | `np.argmax` of a boolean array is its first true index, or 0 when there is none |
| Compiler.Reached | app/core/algo_sdk.py:120-124 | one crossing flag per output |
| Compiler.EstimateModel | app/core/algo_sdk.py:109-128 | fewer than five samples give nothing; a flat response gives tau = delay = deadzone = 0 |
| Compiler.Crossing | app/core/algo_sdk.py:120-124 | a crossing index lies within the samples |
| Compiler.Elapsed | app/core/algo_sdk.py:122 | the time from the first sample to sample i, 0 when i is 0 |
| Compiler.Ordered | app/core/algo_sdk.py:112 | the timestamps read at this line never go backwards, the hypothesis of the threshold-ordering lemmas |
| Compiler.FirstTrueMono | app/core/algo_sdk.py:120-124 | a flag set implied by another is first true no later |
| Compiler.DelayWithinTau | app/core/algo_sdk.py:109-125 | on non-decreasing timestamps, 0 ≤ delay ≤ tau |
| Compiler.CrossingOrder | app/core/algo_sdk.py:120-124 | the 5% level is reached no later than the 63.2% level |
| Compiler.Clamp | app/core/algo_sdk.py:164 | `max(-limit, min(limit, u))` lies in [−limit, limit] and leaves in-range commands alone |
| Compiler.SimulateBounds | app/core/algo_sdk.py:159-168 | the simulation yields one output and one command per reference value, each command clamped |
| Compiler.PidStep | app/core/algo_sdk.py:160-168 | one loop iteration: error, integral, derivative, clamped command and the first-order output update with `max(tau, 1e-3)` |
| Compiler.Simulate | app/core/algo_sdk.py:154-169 | the run from the initial state over the reference, collecting outputs and commands |
| Compiler.SimulatePid | app/core/algo_sdk.py:151-169 | empty reference or dt ≤ 0 gives two empty lists; otherwise the loop computes the simulation, both lists have `len(r)` entries, and every command lies in [−u_limit, u_limit] |
| Compiler.KeyIndex | app/core/algo_sdk.py:136 | the position of a bucket key, or none when absent |
| Compiler.TotalUpdate | app/core/algo_sdk.py:136 | replacing a bucket changes the total by the difference of sizes |
| Compiler.AddToBucketed | app/core/algo_sdk.py:135-136 | a sample lands in the bucket of its bins, and keys stay distinct |
| Compiler.AddToTotal | app/core/algo_sdk.py:136 | `setdefault(key, []).append(s)` adds exactly one sample |
| Compiler.AddToTimed | app/core/algo_sdk.py:136 | bucket members stay timestamped |
| Compiler.GroupPartitions | app/core/algo_sdk.py:131-136 | the buckets partition the log: distinct keys, each sample in its own bins' bucket, none lost |
| Compiler.GroupTimed | app/core/algo_sdk.py:131-136 | every bucket's samples are timestamped |
| Compiler.GroupLogs | app/core/algo_sdk.py:131-136 | the bucketing loop computes the grouping in first-seen key order |
| Compiler.BinOf | app/core/algo_sdk.py:133-135 | the bucket key `(int(spd // sb), int(volt // vb))`, 0 for a missing value |
| Compiler.AddTo | app/core/algo_sdk.py:136 | `table.setdefault(key, []).append(s)` on an insertion-ordered table |
| Compiler.Group | app/core/algo_sdk.py:131-136 | the table after every log entry, in order |
| Compiler.Total | app/core/algo_sdk.py:136 | how many entries the buckets hold |
| Compiler.Bucketed | app/core/algo_sdk.py:135-136 | distinct keys, and every entry in the bucket of its own bins |
| Compiler.AllTimed | app/core/algo_sdk.py:112 | every bucket's entries carry "t" |
| Compiler.Estimable | app/core/algo_sdk.py:110-112 | every bucket of at least five entries, the only ones whose "t" `estimate_model` reads, has it |
| Compiler.RowOf | app/core/algo_sdk.py:141-147 | a row: `[k·sb, (k+1)·sb]`, `[v·vb, (v+1)·vb]`, tau, delay and deadzone |
| Compiler.Rows | app/core/algo_sdk.py:137-147 | one row per bucket with a model, in table order |
| Compiler.Large | app/core/algo_sdk.py:139-140 | how many buckets hold at least five entries |
| Compiler.TableRows | app/core/algo_sdk.py:137-147 | `KeyError("t")` exactly when a bucket of at least five entries has one without "t"; otherwise the rows, one per bucket with a model, in bucket order |
| Compiler.EstimatedRows | app/core/algo_sdk.py:137-147 | the row loop on buckets `estimate_model` can read equals `Rows` |
| Compiler.RowsCount | app/core/algo_sdk.py:139-141 | rows are emitted exactly for buckets of at least five samples |
| Compiler.RangesHold | app/core/algo_sdk.py:135-143 | a sample lies within its row's ranges [k·sb, (k+1)·sb) and [v·vb, (v+1)·vb) |
| Compiler.FloorBounds | app/core/algo_sdk.py:135 | floor division places x between k·w and (k+1)·w |
| Compiler.MulStrict | app/core/algo_sdk.py:142-143 | multiplying by a positive width keeps strict order |
| Compiler.MulMono | app/core/algo_sdk.py:142-143 | multiplying by a positive width keeps order |
| Compiler.LogEntry | app/core/algo_sdk.py:67-71 | the entry holds "t", the telemetry keys and the context keys; context overrides telemetry, which overrides "t" |
| Compiler.WindowMembers | app/core/algo_sdk.py:79 | the filtered log holds exactly the entries with start ≤ t ≤ end, and is no longer than the log |
| Compiler.WindowAppend | app/core/algo_sdk.py:79 | filtering preserves log order: the filter of a concatenation is the concatenation of filters |
| Compiler.InWindow | app/core/algo_sdk.py:79 | `(start is None or t >= start) and (end is None or t <= end)` |
| Compiler.Window | app/core/algo_sdk.py:79 | the list comprehension: the entries within the bounds, in log order |
| Compiler.Diffs | app/core/algo_sdk.py:176 | `np.diff` is one shorter than its input |
| Compiler.TuneStep | app/core/algo_sdk.py:176 | `dt`: the median of the time differences, 0.05 for a single sample |
| Compiler.TuneTau | app/core/algo_sdk.py:177-178 | `tau`: the estimated one, 0.5 without an estimate |
| Compiler.TuneSetup | app/core/algo_sdk.py:174-178 | the times, target column (0 where missing), tau and dt every candidate is simulated with |
| Compiler.GainsAt | app/core/algo_sdk.py:184-188 | the gains `base` scaled by the factors at a, b and c |
| Compiler.Saturated | app/core/algo_sdk.py:194 | how many commands satisfy `abs(u) >= 0.98 * u_limit` |
| Compiler.Cost | app/core/algo_sdk.py:195-202 | the weighted sum of RMS, positive overshoot, settle time, saturation share, energy and jitter |
| Compiler.Runnable | app/core/algo_sdk.py:152 | the setups the early return lets through: `dt > 0` and a non-empty reference, with one timestamp per reference value |
| Compiler.Scorer | app/core/algo_sdk.py:189-203 | `Score` on one setup, as a function of the gains |
| Compiler.FirstMin | app/core/algo_sdk.py:204 | `min(key=cost)` returns the first candidate of least cost |
| Compiler.SimSamples | app/core/algo_sdk.py:192 | one timestamped sample per simulated output |
| Compiler.Score | app/core/algo_sdk.py:184-203 | a candidate carries the gains it was scored for |
| Compiler.CellsC | app/core/algo_sdk.py:183-203 | the innermost loop yields one candidate per kd factor |
| Compiler.CellsB | app/core/algo_sdk.py:182-203 | the middle loop yields five candidates per ki factor |
| Compiler.CellsA | app/core/algo_sdk.py:181-203 | the outer loop yields 25 candidates per kp factor |
| Compiler.CellsCAt | app/core/algo_sdk.py:183-188 | candidate c of the innermost loop has kd factor c |
| Compiler.CellsBAt | app/core/algo_sdk.py:182-188 | candidate 5b + c of the middle loop has factors b and c |
| Compiler.CellsAAt | app/core/algo_sdk.py:181-188 | candidate 25a + 5b + c has factors a, b and c |
| Compiler.GridAt | app/core/algo_sdk.py:179-203 | the grid has 125 candidates, and candidate k has gains `base × (f[k/25], f[(k/5)%5], f[k%5])` |
| Compiler.Grid | app/core/algo_sdk.py:179-203 | the candidates of the three nested loops, in loop order |
| Compiler.Accumulate | app/core/algo_sdk.py:211-218 | the table's new length is max(old, n); slot i < n grows by alpha·(target − speed); slots ≥ n are unchanged |
| Compiler.Partial | app/core/algo_sdk.py:212-213 | the padded table has length max(old, n) |
| Compiler.PartialStep | app/core/algo_sdk.py:214-218 | one loop iteration updates slot i only |
| Compiler.AccumulateTwice | app/core/algo_sdk.py:208-219 | two updates with rates alpha and beta equal one update with alpha + beta |
| Compiler.NotIdempotent | app/core/algo_sdk.py:208-219 | with a non-zero first error, updating twice differs from updating once |
| Compiler.TrackingError | app/core/algo_sdk.py:215-217 | `target_spd - speed`, each 0 where missing |
| Compiler.FloatList.constructor | app/core/algo_sdk.py:51 | a new feedforward list is empty |
| Compiler.ControlCompiler.constructor | app/core/algo_sdk.py:46-54 | empty log and tables, no profile, session 0 |
| Compiler.ControlCompiler.Reset | app/core/algo_sdk.py:56-64 | everything emptied, a new feedforward list, session id incremented |
| Compiler.ControlCompiler.Ingest | app/core/algo_sdk.py:66-72 | on any log, exactly one entry appended at the end, stamped with the given timestamp or the clock; a timestamped log stays timestamped |
| Compiler.ControlCompiler.SliceLogs | app/core/algo_sdk.py:74-79 | empty log gives []; no bounds gives the log, timestamped or not; with a bound, `KeyError("t")` when an entry lacks "t", otherwise exactly the entries within the bounds, in log order (`Window`) |
| Compiler.ControlCompiler.BuildModelTable | app/core/algo_sdk.py:130-149 | a zero bin width gives [] on an empty log and `ZeroDivisionError` otherwise; else `KeyError("t")` when a bucket of at least five entries has one without "t", never on a timestamped log; otherwise the rows of the bucketed log, stored in `model_table`; on an error `model_table` is unchanged |
| Compiler.ControlCompiler.AutoTune | app/core/algo_sdk.py:171-206 | empty samples give nothing; otherwise the tuning table is the scored 125-point grid (empty when dt ≤ 0) and the result its first least-cost candidate |
| Compiler.ControlCompiler.SearchGrid | app/core/algo_sdk.py:181-203 | the three nested loops build the grid in loop order |
| Compiler.ControlCompiler.TryKi | app/core/algo_sdk.py:182-203 | the middle loop appends the 25 candidates of one kp factor |
| Compiler.ControlCompiler.TryKd | app/core/algo_sdk.py:183-203 | the innermost loop appends the 5 candidates of one kp, ki pair |
| Compiler.ControlCompiler.TryGains | app/core/algo_sdk.py:184-203 | one grid point appends its scored candidate when the simulation ran |
| Compiler.ControlCompiler.Evaluate | app/core/algo_sdk.py:189-203 | the simulation runs exactly when dt > 0, and the candidate is its score |
| Compiler.ControlCompiler.UpdateFeedforward | app/core/algo_sdk.py:208-219 | empty samples return a new empty list and leave the table; otherwise the list is updated in place to the accumulated table and the list object itself is returned |
| Compiler.ControlCompiler.CompileProfile | app/core/algo_sdk.py:221-229 | the profile holds the id, the gains, the model table and the live feedforward list itself (aliased), and becomes the current profile |

## Left out

- Threads, sleeps, locks and `time.time()` are not modelled. The TX, RX and maintenance loops are modelled one pass at a time, and the current time is a parameter.
- `serial.Serial` is not modelled. Opening, reading and writing are parameters that say whether the call succeeded and what it returned.
- Callbacks and handlers are opaque identities. Each invocation is recorded as an event, and callbacks are assumed not to raise.
- The `logging` calls are not modelled.
- `Packet.timestamp` is not modelled, and neither is a version other than 1 on the sending side.
- The first decoding pass in `cobs_decode` is not modelled. Its result is discarded and it cannot raise, so the model delegates to `_cobs_decode_simple` at once.
- The `experiments` and `last_report` fields of `ControlCompiler` are only ever reset and are not modelled.
- numpy's `sqrt`, `std`, `percentile` and `median` are function values in a `Numerics` record, with no properties assumed.
- Floating-point rounding and NaN are not modelled; numbers are exact reals.
- Telemetry and context values are modelled as reals, and sample dictionaries as maps from strings to reals.
- The UI's `load_log_records` (`app/ui/main_window.py`) is not part of this model. It assigns device records to `logs` directly, so the log may lack "t". `Ingest` therefore does not require a timestamped log, and `SliceLogs` and `BuildModelTable` return the `KeyError` the source raises on one.
- Compiler.ControlCompiler.AutoTune: requires every sample to carry "t"; the source reads it at line 174 and raises `KeyError` when it is missing, which is not modelled.
- Compiler.ComputeMetrics: requires every sample to carry "t"; for non-empty input the source reads it at line 84 and raises `KeyError` when it is missing, which is not modelled. Empty input returns nothing, as in the source.
- Compiler.EstimateModel: requires "t" only when there are at least five samples, where the source reads it at line 112 and would raise `KeyError`; fewer samples return nothing without reading it.
- Default arguments are not modelled: callers pass every argument. This covers `u_limit=100.0`, `speed_bin=50.0`, `voltage_bin=2.0`, `alpha=0.2`, the key names of `compute_metrics` and `estimate_model`, and `payload` and `need_ack` of `Dispatcher.send`.
- Compiler.RangesHold: stated for positive bin widths only; with a negative width the source's ranges run from the larger bound to the smaller.
- Compiler.ControlCompiler.Ingest: the clock value is a parameter instead of `time.time()`.
- The UI, the plugins, the parameter loader and the firmware stubs are outside this model.
