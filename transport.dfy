/** The serial transport of app/core/serial_interface.py: a FIFO of packets
    to send, a receive buffer split on 0x00 delimiters, and the statistics
    counters. The port and the two threads are replaced by the outcome of
    each operation, passed in as a parameter. */
module Transport {
  import opened Common
  import Protocol

  /** `rx_buffer.index(b'\x00')` when a delimiter is present; the length of
      the buffer when there is none (`b'\x00' in rx_buffer` is false). */
  function FirstZero(s: seq<Byte>): (i: nat)
    ensures i <= |s|
    ensures i < |s| ==> s[i] == 0
  {
    if s == [] || s[0] == 0 then 0 else FirstZero(s[1..]) + 1
  }

  /** ...and no delimiter comes before it. */
  lemma {:induction false} FirstZeroIsFirst(s: seq<Byte>)
    ensures NoZero(s[..FirstZero(s)])
  {
    if s != [] && s[0] != 0 {
      FirstZeroIsFirst(s[1..]);
      var j := FirstZero(s[1..]);
      assert s[..j + 1] == [s[0]] + s[1..][..j];
    }
  }

  /** The complete segments of a receive buffer, in order: the bytes before
      each delimiter, empty where two delimiters are adjacent. */
  function Segments(buf: seq<Byte>): seq<seq<Byte>>
    decreases |buf|
  {
    var i := FirstZero(buf);
    if i == |buf| then [] else [buf[..i]] + Segments(buf[i + 1..])
  }

  /** What is left of the buffer once every complete segment is taken out. */
  function Remainder(buf: seq<Byte>): seq<Byte>
    decreases |buf|
  {
    var i := FirstZero(buf);
    if i == |buf| then buf else Remainder(buf[i + 1..])
  }

  /** The segments put back together, each with its delimiter. */
  function Join(segs: seq<seq<Byte>>): seq<Byte>
  {
    if segs == [] then [] else segs[0] + [0] + Join(segs[1..])
  }

  /** Cutting the first segment and its delimiter off the buffer: the
      segments lose their first, the remainder stays. */
  lemma {:induction false} CutSegments(buf: seq<Byte>, i: nat, rest: seq<Byte>)
    requires i == FirstZero(buf) && i < |buf| && rest == buf[i + 1..]
    ensures Segments(buf) == [buf[..i]] + Segments(rest)
  {
  }

  lemma {:induction false} CutRemainder(buf: seq<Byte>, i: nat, rest: seq<Byte>)
    requires i == FirstZero(buf) && i < |buf| && rest == buf[i + 1..]
    ensures Remainder(buf) == Remainder(rest)
  {
  }

  lemma CutAtZero(buf: seq<Byte>, i: nat, rest: seq<Byte>)
    requires i < |buf| && buf[i] == 0 && rest == buf[i + 1..]
    ensures buf == buf[..i] + [0] + rest
  {
  }

  /** Splitting loses nothing: the segments with their delimiters, then the
      remainder, are the buffer. */
  lemma {:induction false} SplitJoin(buf: seq<Byte>)
    ensures Join(Segments(buf)) + Remainder(buf) == buf
    decreases |buf|
  {
    var i := FirstZero(buf);
    if i < |buf| {
      var rest := buf[i + 1..];
      CutSegments(buf, i, rest);
      CutRemainder(buf, i, rest);
      CutAtZero(buf, i, rest);
      SplitJoin(rest);
      var segs := Segments(buf);
      assert segs[0] == buf[..i] && segs[1..] == Segments(rest);
      calc {
        Join(segs) + Remainder(buf);
        buf[..i] + [0] + Join(Segments(rest)) + Remainder(rest);
        buf[..i] + [0] + (Join(Segments(rest)) + Remainder(rest));
        buf;
      }
    }
  }

  /** The remainder holds no delimiter... */
  lemma {:induction false} RemainderNoZero(buf: seq<Byte>)
    ensures NoZero(Remainder(buf))
    decreases |buf|
  {
    var i := FirstZero(buf);
    if i < |buf| {
      var rest := buf[i + 1..];
      CutRemainder(buf, i, rest);
      RemainderNoZero(rest);
    } else {
      FirstZeroIsFirst(buf);
      assert buf[..i] == buf;
    }
  }

  /** ...it is a suffix of the buffer, shorter exactly when the buffer
      holds a delimiter... */
  lemma {:induction false} RemainderIsTail(buf: seq<Byte>)
    ensures var r := Remainder(buf);
      && |r| <= |buf| && r == buf[|buf| - |r|..]
      && (FirstZero(buf) < |buf| <==> |r| < |buf|)
    decreases |buf|
  {
    var i := FirstZero(buf);
    if i < |buf| {
      var rest := buf[i + 1..];
      CutRemainder(buf, i, rest);
      RemainderIsTail(rest);
      var r := Remainder(rest);
      assert rest[|rest| - |r|..] == buf[|buf| - |r|..];
    }
  }

  /** ...and the byte just before it, when there is one, is the last delimiter. */
  lemma {:induction false} RemainderFollowsDelimiter(buf: seq<Byte>)
    ensures |Remainder(buf)| < |buf| ==> buf[|buf| - |Remainder(buf)| - 1] == 0
    decreases |buf|
  {
    var i := FirstZero(buf);
    if i < |buf| {
      var rest := buf[i + 1..];
      CutRemainder(buf, i, rest);
      RemainderIsTail(rest);
      RemainderFollowsDelimiter(rest);
      var r := Remainder(rest);
      if |r| == |rest| {
        assert |buf| - |r| - 1 == i;
      } else {
        assert buf[|buf| - |r| - 1] == rest[|rest| - |r| - 1];
      }
    }
  }

  /** No segment holds a delimiter. */
  lemma {:induction false} SegmentsNoZero(buf: seq<Byte>)
    ensures forall k | 0 <= k < |Segments(buf)| :: NoZero(Segments(buf)[k])
    decreases |buf|
  {
    var i := FirstZero(buf);
    if i < |buf| {
      var rest := buf[i + 1..];
      CutSegments(buf, i, rest);
      SegmentsNoZero(rest);
      FirstZeroIsFirst(buf);
    }
  }

  /** A packet parser: `Protocol.Parse` in the interface, any function in
      the lemmas about splitting, which do not depend on how a segment parses. */
  type Parser = seq<Byte> -> Result<Protocol.Packet, Protocol.ParseError>

  /** The packet a segment yields: none when it is empty or fails to parse. */
  function Yield(seg: seq<Byte>, parse: Parser): seq<Protocol.Packet>
  {
    if seg != [] && parse(seg).Ok? then [parse(seg).value] else []
  }

  /** Whether a segment counts as a receive error: non-empty and rejected. */
  function Fails(seg: seq<Byte>, parse: Parser): nat
  {
    if seg != [] && parse(seg).Err? then 1 else 0
  }

  /** The packets that parse, in buffer order; empty segments are skipped. */
  function Parsed(segs: seq<seq<Byte>>, parse: Parser): seq<Protocol.Packet>
  {
    if segs == [] then [] else Parsed(segs[..|segs| - 1], parse) + Yield(segs[|segs| - 1], parse)
  }

  /** How many non-empty segments fail to parse. */
  function Rejected(segs: seq<seq<Byte>>, parse: Parser): nat
  {
    if segs == [] then 0 else Rejected(segs[..|segs| - 1], parse) + Fails(segs[|segs| - 1], parse)
  }

  lemma ParsedSnoc(segs: seq<seq<Byte>>, seg: seq<Byte>, parse: Parser)
    ensures Parsed(segs + [seg], parse) == Parsed(segs, parse) + Yield(seg, parse)
  {
    assert (segs + [seg])[..|segs|] == segs;
  }

  lemma RejectedSnoc(segs: seq<seq<Byte>>, seg: seq<Byte>, parse: Parser)
    ensures Rejected(segs + [seg], parse) == Rejected(segs, parse) + Fails(seg, parse)
  {
    assert (segs + [seg])[..|segs|] == segs;
  }

  /** How many segments are non-empty. */
  function NonEmpty(segs: seq<seq<Byte>>): nat
  {
    if segs == [] then 0 else NonEmpty(segs[..|segs| - 1]) + (if segs[|segs| - 1] != [] then 1 else 0)
  }

  /** Every non-empty segment is parsed exactly once: it either succeeds or
      is counted as an error. */
  lemma {:induction false} EachSegmentOnce(segs: seq<seq<Byte>>, parse: Parser)
    ensures |Parsed(segs, parse)| + Rejected(segs, parse) == NonEmpty(segs)
  {
    if segs != [] {
      EachSegmentOnce(segs[..|segs| - 1], parse);
    }
  }

  /** Empty segments, from adjacent delimiters, yield no packet... */
  lemma {:induction false} EmptySegmentNoPacket(segs: seq<seq<Byte>>, parse: Parser)
    ensures Parsed([[]] + segs, parse) == Parsed(segs, parse)
  {
    if segs == [] {
      assert [[]] + segs == [] + [[]];
      ParsedSnoc([], [], parse);
    } else {
      var init := segs[..|segs| - 1];
      var last := segs[|segs| - 1];
      EmptySegmentNoPacket(init, parse);
      assert [[]] + segs == ([[]] + init) + [last];
      assert segs == init + [last];
      ParsedSnoc([[]] + init, last, parse);
      ParsedSnoc(init, last, parse);
    }
  }

  /** ...and no error. */
  lemma {:induction false} EmptySegmentNoError(segs: seq<seq<Byte>>, parse: Parser)
    ensures Rejected([[]] + segs, parse) == Rejected(segs, parse)
  {
    if segs == [] {
      assert [[]] + segs == [] + [[]];
      RejectedSnoc([], [], parse);
    } else {
      var init := segs[..|segs| - 1];
      var last := segs[|segs| - 1];
      EmptySegmentNoError(init, parse);
      assert [[]] + segs == ([[]] + init) + [last];
      assert segs == init + [last];
      RejectedSnoc([[]] + init, last, parse);
      RejectedSnoc(init, last, parse);
    }
  }

  lemma {:induction false} ParsedCons(seg: seq<Byte>, segs: seq<seq<Byte>>, parse: Parser)
    ensures Parsed([seg] + segs, parse) == Yield(seg, parse) + Parsed(segs, parse)
  {
    if segs == [] {
      assert [seg] + segs == [] + [seg];
      ParsedSnoc([], seg, parse);
    } else {
      var init := segs[..|segs| - 1];
      var last := segs[|segs| - 1];
      calc {
        Parsed([seg] + segs, parse);
        { assert [seg] + segs == ([seg] + init) + [last]; ParsedSnoc([seg] + init, last, parse); }
        Parsed([seg] + init, parse) + Yield(last, parse);
        { ParsedCons(seg, init, parse); }
        Yield(seg, parse) + Parsed(init, parse) + Yield(last, parse);
        { assert segs == init + [last]; ParsedSnoc(init, last, parse); }
        Yield(seg, parse) + Parsed(segs, parse);
      }
    }
  }

  /** The first delimiter is found at `i` when `i` holds one and nothing before it does. */
  lemma FirstZeroAt(s: seq<Byte>, i: nat)
    requires i < |s| && s[i] == 0 && NoZero(s[..i])
    ensures FirstZero(s) == i
  {
    FirstZeroIsFirst(s);
  }

  /** A frame as written to the port: its last byte is the one delimiter it holds. */
  predicate Delimited(f: seq<Byte>)
  {
    |f| >= 1 && f[|f| - 1] == 0 && NoZero(f[..|f| - 1])
  }

  /** Frames written one after the other. */
  function Flatten(frames: seq<seq<Byte>>): seq<Byte>
  {
    if frames == [] then [] else frames[0] + Flatten(frames[1..])
  }

  /** The frames without their delimiters. */
  function Strip(frames: seq<seq<Byte>>): seq<seq<Byte>>
    requires forall k | 0 <= k < |frames| :: Delimited(frames[k])
  {
    if frames == [] then []
    else
      assert Delimited(frames[0]);
      [frames[0][..|frames[0]| - 1]] + Strip(frames[1..])
  }

  /** The first delimiter of a stream of frames closes the first frame. */
  lemma CutFrame(f: seq<Byte>, rest: seq<Byte>)
    requires Delimited(f)
    ensures FirstZero(f + rest) == |f| - 1
  {
    assert (f + rest)[..|f| - 1] == f[..|f| - 1];
    FirstZeroAt(f + rest, |f| - 1);
  }

  /** A stream of frames splits back into the frames, delimiters removed... */
  lemma {:induction false} StreamSegments(frames: seq<seq<Byte>>)
    requires forall k | 0 <= k < |frames| :: Delimited(frames[k])
    ensures Segments(Flatten(frames)) == Strip(frames)
  {
    if frames != [] {
      var f := frames[0];
      var w := Flatten(frames);
      var rest := Flatten(frames[1..]);
      assert w == f + rest;
      CutFrame(f, rest);
      assert w[..|f| - 1] == f[..|f| - 1] && w[|f|..] == rest;
      CutSegments(w, |f| - 1, rest);
      StreamSegments(frames[1..]);
    }
  }

  /** ...and leaves nothing in the receive buffer. */
  lemma {:induction false} StreamLeavesNothing(frames: seq<seq<Byte>>)
    requires forall k | 0 <= k < |frames| :: Delimited(frames[k])
    ensures Remainder(Flatten(frames)) == []
  {
    if frames != [] {
      var f := frames[0];
      var w := Flatten(frames);
      var rest := Flatten(frames[1..]);
      assert w == f + rest;
      CutFrame(f, rest);
      assert w[|f|..] == rest;
      CutRemainder(w, |f| - 1, rest);
      StreamLeavesNothing(frames[1..]);
    }
  }

  /** When each frame, delimiter removed, parses to its packet, the stripped
      frames parse to the packets in order. */
  lemma {:induction false} ParsedFrames(frames: seq<seq<Byte>>, ps: seq<Protocol.Packet>, parse: Parser)
    requires |frames| == |ps|
    requires forall k | 0 <= k < |frames| ::
      Delimited(frames[k]) && Yield(frames[k][..|frames[k]| - 1], parse) == [ps[k]]
    ensures Parsed(Strip(frames), parse) == ps
  {
    if frames != [] {
      ParsedFrames(frames[1..], ps[1..], parse);
      ParsedCons(frames[0][..|frames[0]| - 1], Strip(frames[1..]), parse);
      assert [ps[0]] + ps[1..] == ps;
    }
  }

  /** A serialized packet is a delimited frame which, delimiter removed,
      parses back to the packet. */
  lemma YieldOfSerialized(p: Protocol.Packet)
    requires Protocol.Packable(p)
    ensures Delimited(Protocol.Serialize(p).value)
    ensures var w := Protocol.Serialize(p).value;
      Yield(w[..|w| - 1], Protocol.Parse) == [p]
  {
    var w := Protocol.Serialize(p).value;
    var e := w[..|w| - 1];
    assert w == e + [0];
    assert e[|e| - 1] != 0;
    Protocol.ParseDelimiterOptional(e);
    Protocol.ParseSerialize(p);
  }

  /** The frames the transmit loop writes for a queue of packets. */
  function Frames(ps: seq<Protocol.Packet>): (frames: seq<seq<Byte>>)
    requires forall k | 0 <= k < |ps| :: Protocol.Packable(ps[k])
    ensures |frames| == |ps|
  {
    if ps == [] then [] else [Protocol.Serialize(ps[0]).value] + Frames(ps[1..])
  }

  /** Whatever packets are sent, the receiving side parses exactly those
      packets, in order, from the bytes on the wire, and keeps no bytes back. */
  lemma StreamRoundTrip(ps: seq<Protocol.Packet>)
    requires forall k | 0 <= k < |ps| :: Protocol.Packable(ps[k])
    ensures Parsed(Segments(Flatten(Frames(ps))), Protocol.Parse) == ps
    ensures Remainder(Flatten(Frames(ps))) == []
  {
    var frames := Frames(ps);
    FramesSerialized(ps);
    forall k | 0 <= k < |frames|
      ensures Delimited(frames[k]) && Yield(frames[k][..|frames[k]| - 1], Protocol.Parse) == [ps[k]]
    {
      YieldOfSerialized(ps[k]);
    }
    StreamSegments(frames);
    StreamLeavesNothing(frames);
    ParsedFrames(frames, ps, Protocol.Parse);
  }

  lemma {:induction false} FramesSerialized(ps: seq<Protocol.Packet>)
    requires forall k | 0 <= k < |ps| :: Protocol.Packable(ps[k])
    ensures forall k | 0 <= k < |ps| :: Frames(ps)[k] == Protocol.Serialize(ps[k]).value
  {
    if ps != [] {
      FramesSerialized(ps[1..]);
    }
  }

  /** The state of `_process_buffer`'s loop: the segments cut so far, then
      those still in the buffer, are the segments of the original buffer,
      whose remainder is the remainder of the buffer left. */
  ghost predicate Splitting(buf0: seq<Byte>, done: seq<seq<Byte>>, buf: seq<Byte>)
  {
    done + Segments(buf) == Segments(buf0) && Remainder(buf) == Remainder(buf0)
  }

  lemma SplittingStep(buf0: seq<Byte>, done: seq<seq<Byte>>, buf: seq<Byte>, i: nat, rest: seq<Byte>)
    requires Splitting(buf0, done, buf)
    requires i == FirstZero(buf) && i < |buf| && rest == buf[i + 1..]
    ensures Splitting(buf0, done + [buf[..i]], rest)
  {
    CutSegments(buf, i, rest);
    CutRemainder(buf, i, rest);
    assert done + Segments(buf) == (done + [buf[..i]]) + Segments(rest);
  }

  lemma SplittingDone(buf0: seq<Byte>, done: seq<seq<Byte>>, buf: seq<Byte>)
    requires Splitting(buf0, done, buf) && FirstZero(buf) == |buf|
    ensures done == Segments(buf0) && buf == Remainder(buf0)
  {
    assert Segments(buf) == [];
    assert done + [] == done;
  }

  /** The counters and the callback's packets once the segments `done` are
      processed, starting from `stats0` and `delivered0`. */
  ghost predicate Accounted(stats0: Stats, delivered0: seq<Protocol.Packet>, hasCallback: bool,
                            done: seq<seq<Byte>>, stats: Stats, delivered: seq<Protocol.Packet>, parse: Parser)
  {
    && stats == stats0.(rxPackets := stats0.rxPackets + |Parsed(done, parse)|, rxErrors := stats0.rxErrors + Rejected(done, parse))
    && delivered == delivered0 + (if hasCallback then Parsed(done, parse) else [])
  }

  lemma AccountedStep(stats0: Stats, delivered0: seq<Protocol.Packet>, hasCallback: bool,
                      done: seq<seq<Byte>>, seg: seq<Byte>, stats: Stats, delivered: seq<Protocol.Packet>, parse: Parser)
    requires Accounted(stats0, delivered0, hasCallback, done, stats, delivered, parse)
    ensures Accounted(stats0, delivered0, hasCallback, done + [seg],
                      stats.(rxPackets := stats.rxPackets + |Yield(seg, parse)|, rxErrors := stats.rxErrors + Fails(seg, parse)),
                      delivered + (if hasCallback then Yield(seg, parse) else []), parse)
  {
    ParsedSnoc(done, seg, parse);
    RejectedSnoc(done, seg, parse);
  }

  /** The `stats` dictionary. */
  datatype Stats = Stats(txPackets: nat, rxPackets: nat, rxErrors: nat, bytesSent: nat, bytesReceived: nat)

  class SerialInterface {
    /** The flag that keeps both threads looping. */
    var running: bool
    var connected: bool
    /** `self.serial` exists and `is_open`. */
    var portOpen: bool
    var txQueue: seq<Protocol.Packet>
    var rxBuffer: seq<Byte>
    /** Whether `rx_callback` is set. */
    var hasCallback: bool
    /** The packets handed to `rx_callback`, in order. */
    var delivered: seq<Protocol.Packet>
    /** The byte strings written to the port, in order. */
    var written: seq<seq<Byte>>
    var stats: Stats

    /** `__init__`: closed, idle, empty queues, zero counters. */
    constructor ()
      ensures !running && !connected && !portOpen && !hasCallback
      ensures txQueue == [] && rxBuffer == [] && delivered == [] && written == []
      ensures stats == Stats(0, 0, 0, 0, 0)
    {
      running := false;
      connected := false;
      portOpen := false;
      txQueue := [];
      rxBuffer := [];
      hasCallback := false;
      delivered := [];
      written := [];
      stats := Stats(0, 0, 0, 0, 0);
    }

    /** `open`: `success` says whether the port could be opened; the two
        threads it starts are not modelled. */
    method Open(success: bool) returns (ok: bool)
      modifies this`portOpen, this`running, this`connected
      ensures ok == success
      ensures success ==> running && connected && portOpen
      ensures !success ==> !connected && running == old(running) && portOpen == old(portOpen)
    {
      if success {
        portOpen := true;
        running := true;
        connected := true;
        ok := true;
      } else {
        connected := false;
        ok := false;
      }
    }

    /** `close`: both loops stop and the port is closed. */
    method Close()
      modifies this`portOpen, this`running, this`connected
      ensures !running && !connected && !portOpen
    {
      running := false;
      portOpen := false;
      connected := false;
    }

    /** `send`: the packet joins the back of the queue. */
    method Send(p: Protocol.Packet)
      modifies this`txQueue
      ensures txQueue == old(txQueue) + [p]
    {
      txQueue := txQueue + [p];
    }

    /** `set_callback`. */
    method SetCallback()
      modifies this`hasCallback
      ensures hasCallback
    {
      hasCallback := true;
    }

    /** One pass of `_tx_loop`: the front packet is taken off the queue and
        serialized; it is written when the port is open. A packet that cannot
        be packed, or a write that fails (`writeOk` false), marks the link
        disconnected, and the packet is lost. */
    method TxStep(writeOk: bool)
      modifies this
      ensures !running || old(txQueue) == [] ==>
        txQueue == old(txQueue) && written == old(written) && stats == old(stats) && connected == old(connected)
      ensures running && old(txQueue) != [] ==> txQueue == old(txQueue)[1..]
      ensures running && old(txQueue) != [] ==>
        var r := Protocol.Serialize(old(txQueue)[0]);
        if r.Err? || (portOpen && !writeOk) then
          !connected && written == old(written) && stats == old(stats)
        else if portOpen then
          connected == old(connected) && written == old(written) + [r.value]
          && stats == old(stats).(txPackets := old(stats).txPackets + 1,
                                  bytesSent := old(stats).bytesSent + |r.value|)
        else
          connected == old(connected) && written == old(written) && stats == old(stats)
      ensures unchanged(this`running, this`portOpen, this`rxBuffer, this`hasCallback, this`delivered)
    {
      if !running || txQueue == [] {
        return;
      }
      var packet := txQueue[0];
      txQueue := txQueue[1..];
      var data := Protocol.Serialize(packet);
      if data.Err? {
        connected := false;
      } else if portOpen {
        if writeOk {
          written := written + [data.value];
          stats := stats.(txPackets := stats.txPackets + 1, bytesSent := stats.bytesSent + |data.value|);
        } else {
          connected := false;
        }
      }
    }

    /** One pass of `_rx_loop`: `data` is what the read returned, `readOk`
        false when it raised. Received bytes are counted, appended to the
        buffer, and the buffer is processed. */
    method RxStep(data: seq<Byte>, readOk: bool)
      modifies this
      ensures !running || !portOpen || (readOk && data == []) ==>
        rxBuffer == old(rxBuffer) && stats == old(stats) && connected == old(connected)
        && delivered == old(delivered)
      ensures running && portOpen && !readOk ==>
        !connected && rxBuffer == old(rxBuffer) && stats == old(stats) && delivered == old(delivered)
      ensures running && portOpen && readOk && data != [] ==>
        var buf := old(rxBuffer) + data;
        && connected == old(connected)
        && rxBuffer == Remainder(buf)
        && Accounted(old(stats).(bytesReceived := old(stats).bytesReceived + |data|), old(delivered), hasCallback,
                     Segments(buf), stats, delivered, Protocol.Parse)
      ensures unchanged(this`running, this`portOpen, this`txQueue, this`written, this`hasCallback)
    {
      if !running || !portOpen {
        return;
      }
      if !readOk {
        connected := false;
        return;
      }
      if data != [] {
        stats := stats.(bytesReceived := stats.bytesReceived + |data|);
        rxBuffer := rxBuffer + data;
        ProcessBuffer();
      }
    }

    /** The body of `_process_buffer` for one non-empty segment: a packet
        that parses is counted and handed to the callback, one that does not
        is counted as an error. */
    method Deliver(frame: seq<Byte>)
      requires frame != []
      modifies this
      ensures rxBuffer == old(rxBuffer)
      ensures running == old(running) && connected == old(connected) && portOpen == old(portOpen)
      ensures txQueue == old(txQueue) && hasCallback == old(hasCallback) && written == old(written)
      ensures stats == old(stats).(rxPackets := old(stats).rxPackets + |Yield(frame, Protocol.Parse)|,
                                   rxErrors := old(stats).rxErrors + Fails(frame, Protocol.Parse))
      ensures delivered == old(delivered) + (if hasCallback then Yield(frame, Protocol.Parse) else [])
    {
      var result := Protocol.Parse(frame);
      if result.Ok? {
        stats := stats.(rxPackets := stats.rxPackets + 1);
        if hasCallback {
          delivered := delivered + [result.value];
        }
      } else {
        stats := stats.(rxErrors := stats.rxErrors + 1);
      }
    }

    /** One pass of `_process_buffer`'s loop: the first segment and its
        delimiter are cut from the front of the buffer, and the segment is
        delivered when it is not empty. */
    method TakeSegment(ghost buf0: seq<Byte>, ghost stats0: Stats, ghost delivered0: seq<Protocol.Packet>,
                       ghost done: seq<seq<Byte>>) returns (ghost done': seq<seq<Byte>>)
      requires FirstZero(rxBuffer) < |rxBuffer|
      requires Splitting(buf0, done, rxBuffer)
      requires Accounted(stats0, delivered0, hasCallback, done, stats, delivered, Protocol.Parse)
      modifies this
      ensures running == old(running) && connected == old(connected) && portOpen == old(portOpen)
      ensures txQueue == old(txQueue) && hasCallback == old(hasCallback) && written == old(written)
      ensures |rxBuffer| < old(|rxBuffer|)
      ensures Splitting(buf0, done', rxBuffer)
      ensures Accounted(stats0, delivered0, hasCallback, done', stats, delivered, Protocol.Parse)
    {
      var idx := FirstZero(rxBuffer);
      var frame := rxBuffer[..idx];
      var rest := rxBuffer[idx + 1..];
      SplittingStep(buf0, done, rxBuffer, idx, rest);
      AccountedStep(stats0, delivered0, hasCallback, done, frame, stats, delivered, Protocol.Parse);
      rxBuffer := rest;
      if |frame| > 0 {
        Deliver(frame);
      }
      done' := done + [frame];
    }

    /** `_process_buffer`: every complete segment is cut from the front of the
        buffer together with its delimiter; each non-empty one is parsed, and
        counted as a packet (handed to the callback, if one is set) or as an error. */
    method ProcessBuffer()
      modifies this
      ensures running == old(running) && connected == old(connected) && portOpen == old(portOpen)
      ensures txQueue == old(txQueue) && hasCallback == old(hasCallback) && written == old(written)
      ensures rxBuffer == Remainder(old(rxBuffer))
      ensures Accounted(old(stats), old(delivered), hasCallback, Segments(old(rxBuffer)), stats, delivered, Protocol.Parse)
    {
      ghost var done: seq<seq<Byte>> := [];
      while FirstZero(rxBuffer) < |rxBuffer|
        invariant running == old(running) && connected == old(connected) && portOpen == old(portOpen)
        invariant txQueue == old(txQueue) && hasCallback == old(hasCallback) && written == old(written)
        invariant Splitting(old(rxBuffer), done, rxBuffer)
        invariant Accounted(old(stats), old(delivered), hasCallback, done, stats, delivered, Protocol.Parse)
        decreases |rxBuffer|
      {
        done := TakeSegment(old(rxBuffer), old(stats), old(delivered), done);
      }
      SplittingDone(old(rxBuffer), done, rxBuffer);
    }
  }
}
