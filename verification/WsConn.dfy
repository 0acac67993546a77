/**
 * The receive side of a WebSocket connection as the source keeps it: fixed buffers that are moved
 * and unmasked in place, cursors, and flags. Every method is proved to compute what WsReceiver says.
 */
module WsConn {
  import opened Bytes
  import opened WsFrame
  import opened WsReceiver
  import Utf8

  /** The value of one round of consuming, spelled out for a message in progress. */
  /** Whether the next `n` bytes end the streamed frame and with it the message. */
  predicate EndsMessage(c: Conn, n: nat) {
    c.large.remaining == n && c.large.fin
  }

  /** The call made for `raw`, the next masked bytes of the streamed frame. */
  function ConsumedPiece(c: Conn, raw: bytes): seq<Event> {
    var last := EndsMessage(c, |raw|);
    var data := Unmask(c.large.key, raw, c.large.off);
    var from := Range(c.msg.total - c.large.remaining, |raw|);
    if raw == [] then []
    else if c.msg.compressed then [Inflate(data, from, |c.msg.frag|)]
    else [Event.Message(data, from, |c.msg.frag|, c.msg.binary, last, if last then c.msg.total else 0)]
  }

  function ConsumedTail(c: Conn, n: nat): seq<Event> {
    if EndsMessage(c, n) && c.msg.compressed then [InflateTail, InflatedFin(c.msg.binary)] else []
  }

  lemma ConsumeValue(c: Conn, n: nat, raw: bytes, r: Conn)
    requires c.large.remaining > 0 && n == |raw| == Min(|c.buf|, c.large.remaining) && c.buf[..n] == raw
    requires r.status == c.status && r.buf == c.buf[n..]
    requires r.events == c.events + ConsumedPiece(c, raw) + ConsumedTail(c, n)
    requires r.large == c.large.(remaining := c.large.remaining - n, off := c.large.off + n)
    requires r.msg == if EndsMessage(c, n) then NO_MSG else c.msg
    ensures StreamConsume(c) == r
  {
    if n == 0 {
      assert c.buf[0..] == c.buf;
    }
  }

  /** Handling a frame does not look at the receive buffer. */
  lemma HandleFrameAside(cfg: Config, c: Conn, c1: Conn, h: Header, payload: bytes, r: Conn, r1: Conn)
    requires c.status.Open? && c1 == c.(buf := c1.buf)
    requires r == HandleFrame(cfg, c, h, payload) && r1 == if r.status.Open? then r.(buf := c1.buf) else r
    ensures r1 == HandleFrame(cfg, c1, h, payload)
  {
    if !Rejects(cfg, c.msg.mode, h) && h.opcode < 8 {
      var out :=
        if h.fin && h.opcode != OPCODE_CONT then SingleFrame(cfg, c.msg, h, payload)
        else Fragment(cfg, Target(c.msg, h), h, payload);
    }
  }

  /** The frame at `pos` in the buffer is the first of what has not been consumed. */
  lemma FrameInBuffer(
    cfg: Config, c: Conn, h: Header, n: nat, buf: bytes, pos: nat, len: nat, payload: bytes, r: Conn, next: Next)
    requires pos <= len <= |buf| && c.buf == buf[pos..len] && 0 < n && pos + n + h.len <= len
    requires next == StepOn(cfg, c, Complete(h, n))
    requires payload == Unmask(h.key, buf[pos + n..pos + n + h.len], 0) && r == HandleFrame(cfg, c, h, payload)
    ensures next == After(r, buf[pos + n + h.len..len])
  {
    StepWhole(cfg, c, h, n);
    SubSlice(buf, pos, len, n, n + h.len);
    SplitSlice(buf, pos, pos + n + h.len, len);
  }

  class Receiver {
    const cfg: Config
    var status: Status

    // recv_buf, recv_pos, recv_len
    const recvBuf: array<byte>
    var recvPos: nat
    var recvLen: nat

    // msg
    var mode: Mode
    var opcode: nat
    var compressed: bool
    var total: nat
    var finSent: bool

    // frag_buf, frag_len
    const fragBuf: array<byte>
    var fragLen: nat
    ghost var fragFrom: seq<int>

    // the streamed frame
    var streamRemaining: nat
    var streamFin: bool
    var streamKey: Option<Key>
    var streamMaskOff: nat

    ghost var events: seq<Event>

    ghost predicate Valid()
      reads this
    {
      && cfg.cap >= 1024 && recvBuf != fragBuf
      && recvBuf.Length == fragBuf.Length == cfg.cap
      && recvPos <= recvLen <= cfg.cap
      && |fragFrom| == fragLen <= cfg.cap
      && !finSent
      && (mode == Idle ==> !compressed && fragLen == 0)
      && (streamRemaining > 0 ==> mode == Stream && streamRemaining <= total)
    }

    ghost function Message(): Msg
      requires fragLen <= fragBuf.Length
      reads this, fragBuf
    {
      if mode == Idle then NO_MSG
      else Msg(mode, opcode == OPCODE_BINARY, compressed, total, fragBuf[..fragLen], fragFrom)
    }

    ghost function Frame(): Large
      reads this
    {
      Large(streamRemaining, streamFin, streamKey, streamMaskOff)
    }

    ghost function State(): Conn
      requires Valid()
      reads this, recvBuf, fragBuf
    {
      if status.Open? then Conn(Open, recvBuf[recvPos..recvLen], Message(), Frame(), events)
      else Conn(status, [], NO_MSG, NO_FRAME, events)
    }

    /** The connection as the handshake leaves it, with `leftover` in the receive buffer. */
    constructor (cfg: Config, leftover: seq<byte>)
      requires cfg.cap >= 1024 && |leftover| <= cfg.cap
      ensures Valid() && fresh(recvBuf) && fresh(fragBuf) && this.cfg == cfg
      ensures State() == Initial(leftover)
    {
      this.cfg := cfg;
      status := Open;
      recvBuf := new byte[cfg.cap](i => if 0 <= i < |leftover| then leftover[i] else 0);
      recvPos, recvLen := 0, |leftover|;
      mode, opcode, compressed, total, finSent := Idle, 0, false, 0, false;
      fragBuf := new byte[cfg.cap](_ => 0);
      fragLen, fragFrom := 0, [];
      streamRemaining, streamFin, streamKey, streamMaskOff := 0, false, None, 0;
      events := [];
      new;
      assert recvBuf[0..|leftover|] == leftover;
    }

    /** Hands message bytes to the application or, for a compressed message, to the inflater. */
    method Deliver(data: seq<byte>, ghost from: seq<int>, ghost held: nat, fin: bool, messageTotal: nat)
      modifies this`events
      ensures events == old(events)
        + [if compressed then Inflate(data, from, held)
           else Event.Message(data, from, held, opcode == OPCODE_BINARY, fin, messageTotal)]
    {
      if compressed {
        events := events + [Inflate(data, from, held)];
      } else {
        events := events + [Event.Message(data, from, held, opcode == OPCODE_BINARY, fin, messageTotal)];
      }
    }

    /** The end of a message: the inflater gets its tail, and fin is called unless it was already. */
    method MsgEnd()
      requires mode != Idle
      modifies this`events, this`mode, this`compressed, this`total, this`finSent, this`fragLen, this`fragFrom
      ensures mode == Idle && !compressed && total == 0 && !finSent && fragLen == 0 && fragFrom == []
      ensures events == old(events) +
        if old(compressed) then [InflateTail] + (if old(finSent) then [] else [InflatedFin(opcode == OPCODE_BINARY)])
        else if old(finSent) then []
        else [Event.Message([], [], old(fragLen), opcode == OPCODE_BINARY, true, old(total))]
    {
      if mode != Idle {
        if compressed {
          events := events + [InflateTail];
          if !finSent {
            finSent := true;
            events := events + [InflatedFin(opcode == OPCODE_BINARY)];
          }
        } else if !finSent {
          events := events + [Event.Message([], [], fragLen, opcode == OPCODE_BINARY, true, total)];
          finSent := true;
        }
      }
      mode, compressed, total, finSent, fragLen, fragFrom := Idle, false, 0, false, 0, [];
    }

    /** Flushes `frag` when `len` more bytes do not fit. */
    method MakeRoom(len: nat)
      requires Valid() && mode != Idle && 0 < len <= cfg.cap
      modifies this`events, this`fragLen, this`fragFrom
      ensures Valid() && fragLen + len <= cfg.cap
      ensures Message() == if old(fragLen) + len > cfg.cap then Cleared(old(Message())) else old(Message())
      ensures events == old(events)
        + if old(fragLen) + len > cfg.cap then [Piece(old(Message()), old(Message()).frag, old(fragFrom), 0)] else []
    {
      if fragLen + len > cfg.cap {
        if fragLen > 0 {
          Deliver(fragBuf[..fragLen], fragFrom, 0, false, 0);
        }
        fragLen, fragFrom := 0, [];
      }
    }

    /** Copies `recvBuf[lo..hi]` behind `frag`. */
    method CopyFragment(lo: nat, hi: nat)
      requires Valid() && mode != Idle && lo <= hi <= cfg.cap && fragLen + (hi - lo) <= cfg.cap
      modifies this`total, this`fragLen, this`fragFrom, fragBuf
      ensures Valid() && Message() == old(Message()).(
        total := old(total) + (hi - lo),
        frag := old(Message()).frag + recvBuf[lo..hi], fragFrom := old(fragFrom) + Range(old(total), hi - lo))
    {
      var len := hi - lo;
      ghost var base := fragBuf[..fragLen];
      fragFrom := fragFrom + Range(total, len);
      total := total + len;
      forall i | 0 <= i < len {
        fragBuf[fragLen + i] := recvBuf[lo + i];
      }
      fragLen := fragLen + len;
      assert fragBuf[..fragLen] == base + recvBuf[lo..hi];
    }

    /** A small fragment `recvBuf[lo..hi]` joins `frag`, after a flush when it does not fit. */
    method FragAppend(lo: nat, hi: nat)
      requires Valid() && mode != Idle && lo <= hi <= cfg.cap
      modifies this`events, this`total, this`fragLen, this`fragFrom, fragBuf
      ensures Valid() && Message() == Append(cfg.cap, old(Message()), recvBuf[lo..hi])
      ensures events == old(events) + AppendEvents(cfg.cap, old(Message()), recvBuf[lo..hi])
    {
      if hi - lo == 0 {
        assert Message().frag + recvBuf[lo..hi] == Message().frag;
        assert Message().fragFrom + Range(total, 0) == Message().fragFrom;
        return;
      }
      MakeRoom(hi - lo);
      CopyFragment(lo, hi);
    }

    /** Moves `fragBuf[n..fragLen]` to the front. */
    method Compact(n: nat)
      requires n <= fragLen <= fragBuf.Length && |fragFrom| == fragLen
      modifies this`fragLen, this`fragFrom, fragBuf
      ensures fragLen == old(fragLen) - n && fragFrom == old(fragFrom)[n..]
      ensures fragBuf[..fragLen] == old(fragBuf[n..fragLen])
    {
      fragLen, fragFrom := fragLen - n, fragFrom[n..];
      forall i | 0 <= i < fragLen {
        fragBuf[i] := fragBuf[n + i];
      }
    }

    /** The flushing loop: hands over the whole of `frag` while it is full. */
    method FlushFull(fin: bool)
      requires Valid() && mode != Idle
      modifies this`events, this`finSent, this`fragLen, this`fragFrom, fragBuf
      ensures |fragFrom| == fragLen <= cfg.cap
      ensures
        if old(fragLen) == cfg.cap && (fin || compressed) then
          && fragLen == 0 && finSent == fin
          && events == old(events)
            + [if compressed then Inflate(old(fragBuf[..fragLen]), old(fragFrom), 0)
               else
                 Event.Message(
                   old(fragBuf[..fragLen]), old(fragFrom), 0, opcode == OPCODE_BINARY, fin, if fin then total else 0)]
        else
          && fragLen == old(fragLen) && fragFrom == old(fragFrom) && fragBuf[..] == old(fragBuf[..])
          && !finSent && events == old(events)
    {
      while fragLen >= cfg.cap && (fin || fragLen > cfg.cap || compressed)
        invariant |fragFrom| == fragLen <= cfg.cap
        invariant
          || (&& fragLen == old(fragLen) && fragFrom == old(fragFrom) && fragBuf[..] == old(fragBuf[..])
              && !finSent && events == old(events))
          || (&& old(fragLen) == cfg.cap && (fin || compressed) && fragLen == 0 && finSent == fin
              && events == old(events)
                + [if compressed then Inflate(old(fragBuf[..fragLen]), old(fragFrom), 0)
                   else
                     Event.Message(
                       old(fragBuf[..fragLen]), old(fragFrom), 0, opcode == OPCODE_BINARY, fin,
                       if fin then total else 0)])
        decreases fragLen
      {
        var last := fin && fragLen == cfg.cap;
        if last {
          finSent := true;
        }
        assert fragFrom[..cfg.cap] == fragFrom;
        Deliver(fragBuf[..cfg.cap], fragFrom[..cfg.cap], fragLen - cfg.cap, last, if last then total else 0);
        Compact(cfg.cap);
      }
    }

    /** What is left of `frag` when the message ends; false closes the connection. */
    method FlushRest() returns (ok: bool)
      requires mode != Idle && |fragFrom| == fragLen <= cfg.cap == fragBuf.Length && (fragLen > 0 ==> !finSent)
      modifies this`events, this`finSent, this`fragLen, this`fragFrom
      ensures ok <==> fragLen == 0
      ensures !ok ==>
        finSent == old(finSent) && events == old(events) && fragLen == old(fragLen) && fragFrom == old(fragFrom)
      ensures ok <==>
        !(&& old(fragLen) > 0 && !compressed && opcode != OPCODE_BINARY && cfg.checkUtf8
          && !Utf8.Valid(fragBuf[..old(fragLen)]))
      ensures ok && old(fragLen) == 0 ==> finSent == old(finSent) && events == old(events)
      ensures ok && old(fragLen) > 0 ==>
        && finSent == !compressed
        && events == old(events)
          + [if compressed then Inflate(fragBuf[..old(fragLen)], old(fragFrom), 0)
             else Event.Message(fragBuf[..old(fragLen)], old(fragFrom), 0, opcode == OPCODE_BINARY, true, total)]
    {
      ok := true;
      if fragLen > 0 {
        if compressed {
          Deliver(fragBuf[..fragLen], fragFrom, 0, false, 0);
        } else {
          if opcode != OPCODE_BINARY && cfg.checkUtf8 {
            ok := Utf8.Validate(fragBuf[..fragLen]);
            Utf8.ValidIffUtf8(fragBuf[..fragLen]);
            if !ok {
              return;
            }
          }
          finSent := true;
          Deliver(fragBuf[..fragLen], fragFrom, 0, true, total);
        }
        fragLen, fragFrom := 0, [];
      }
    }

    /** Flushes full buffers of fragments and, when the message ends, the rest. */
    method FragFlush(fin: bool)
      requires Valid() && mode != Idle && streamRemaining == 0 && status.Open?
      modifies this`status, this`events, this`mode, this`compressed, this`total, this`finSent
      modifies this`fragLen, this`fragFrom, fragBuf
      ensures Valid()
      ensures !fin ==>
        && status.Open? && Message() == Flush(cfg.cap, old(Message()))
        && events == old(events) + FlushEvents(cfg.cap, old(Message()))
      ensures fin && BadEnd(cfg, old(Message())) ==> status == BadText && events == old(events)
      ensures fin && !BadEnd(cfg, old(Message())) ==>
        && status.Open? && mode == Idle
        && events == old(events) + EndEvents(cfg.cap, old(Message()))
    {
      FlushFull(fin);
      assert old(fragLen) < cfg.cap ==> fragBuf[..fragLen] == old(fragBuf[..fragLen]);
      if fin {
        var ok := FlushRest();
        if !ok {
          status := BadText;
          return;
        }
        MsgEnd();
      }
    }

    /** Hands over what `frag` holds before large frames are streamed past it. */
    method FragFlushTail()
      requires Valid() && mode != Idle
      modifies this`events, this`fragLen, this`fragFrom
      ensures Valid() && Message() == Cleared(old(Message()))
      ensures events == old(events)
        + if old(fragLen) == 0 then [] else [Piece(old(Message()), old(Message()).frag, old(fragFrom), 0)]
    {
      if fragLen == 0 {
        return;
      }
      Deliver(fragBuf[..fragLen], fragFrom, 0, false, 0);
      fragLen, fragFrom := 0, [];
    }

    // ---------------------------------------------------------------- streamed frames

    /** Unmasks the next `chunk` payload bytes where they lie. */
    method UnmaskChunk(chunk: nat)
      requires recvPos + chunk <= recvLen <= recvBuf.Length
      modifies recvBuf
      ensures recvBuf[recvPos..recvPos + chunk]
        == Unmask(streamKey, old(recvBuf[recvPos..recvPos + chunk]), streamMaskOff)
      ensures recvBuf[recvPos + chunk..recvLen] == old(recvBuf[recvPos + chunk..recvLen])
    {
      if streamKey.Some? {
        ApplyMask(recvBuf, recvPos, recvPos + chunk, streamKey.value, streamMaskOff);
        SameSlice(recvBuf[..], old(recvBuf[..]), recvPos + chunk, recvLen);
      }
    }

    /** Unmasks and hands over the next `chunk` bytes of the streamed frame. */
    method ConsumeChunk(chunk: nat)
      requires Valid() && status.Open? && mode != Idle && 0 < chunk <= streamRemaining && recvPos + chunk <= recvLen
      modifies this`events, this`finSent, this`recvPos, this`streamRemaining, this`streamMaskOff, recvBuf
      ensures recvPos == old(recvPos) + chunk && streamRemaining == old(streamRemaining) - chunk
      ensures streamMaskOff == old(streamMaskOff) + chunk
      ensures recvBuf[recvPos..recvLen] == old(recvBuf[recvPos + chunk..recvLen])
      ensures finSent == (!compressed && streamRemaining == 0 && streamFin)
      ensures events == old(events)
        + [ChunkEvent(
             old(recvBuf[recvPos..recvPos + chunk]), old(streamMaskOff), total - old(streamRemaining),
             streamRemaining == 0 && streamFin)]
    {
      var last := chunk == streamRemaining && streamFin;
      UnmaskChunk(chunk);
      ghost var from := Range(total - streamRemaining, chunk);
      Deliver(recvBuf[recvPos..recvPos + chunk], from, fragLen, last, if last then total else 0);
      if !compressed && last {
        finSent := true;
      }
      recvPos := recvPos + chunk;
      streamRemaining := streamRemaining - chunk;
      streamMaskOff := streamMaskOff + chunk;
    }

    /** The call made for `raw`, the next masked bytes of the streamed frame. */
    ghost function ChunkEvent(raw: bytes, off: nat, start: int, last: bool): Event
      reads this
    {
      var data, from := Unmask(streamKey, raw, off), Range(start, |raw|);
      if compressed then Inflate(data, from, fragLen)
      else Event.Message(data, from, fragLen, opcode == OPCODE_BINARY, last, if last then total else 0)
    }

    /** Consumes what the buffer holds of the streamed frame in progress. */
    method StreamConsume(ghost c: Conn)
      requires Valid() && status.Open? && streamRemaining > 0 && c == State()
      modifies this`events, this`finSent, this`recvPos, this`streamRemaining, this`streamMaskOff, recvBuf
      modifies this`mode, this`compressed, this`total, this`fragLen, this`fragFrom
      ensures Valid() && State() == WsReceiver.StreamConsume(c)
      ensures recvPos >= old(recvPos)
    {
      ghost var n := Min(recvLen - recvPos, streamRemaining);
      ghost var raw := recvBuf[recvPos..recvPos + n];
      SplitSlice(recvBuf[..], recvPos, recvPos + n, recvLen);
      ConsumeAndEnd(n, raw, c);
      ConsumeValue(c, n, raw, State());
    }

    method ConsumeAndEnd(ghost n: nat, ghost raw: bytes, ghost c: Conn)
      requires Valid() && status.Open? && streamRemaining > 0 && n == Min(recvLen - recvPos, streamRemaining)
      requires c == State() && raw == recvBuf[recvPos..recvPos + n]
      modifies this`events, this`finSent, this`recvPos, this`streamRemaining, this`streamMaskOff, recvBuf
      modifies this`mode, this`compressed, this`total, this`fragLen, this`fragFrom
      ensures Valid() && recvBuf[recvPos..recvLen] == old(recvBuf[recvPos + n..recvLen])
      ensures Frame() == old(Frame()).(remaining := old(streamRemaining) - n, off := old(streamMaskOff) + n)
      ensures Message() == (if streamRemaining == 0 && streamFin then NO_MSG else old(Message()))
      ensures events == c.events + ConsumedPiece(c, raw) + ConsumedTail(c, n)
    {
      ConsumeAll(n, raw, c);
      if streamRemaining == 0 && streamFin {
        MsgEnd();
      }
    }

    /** The consuming loop: chunks of at most recv_cap until the buffer or the frame is used up. */
    method ConsumeAll(ghost n: nat, ghost raw: bytes, ghost c: Conn)
      requires Valid() && status.Open? && streamRemaining > 0 && n == Min(recvLen - recvPos, streamRemaining)
      requires c == State() && raw == recvBuf[recvPos..recvPos + n]
      modifies this`events, this`finSent, this`recvPos, this`streamRemaining, this`streamMaskOff, recvBuf
      ensures recvPos == old(recvPos) + n && streamRemaining == old(streamRemaining) - n
      ensures streamMaskOff == old(streamMaskOff) + n
      ensures recvBuf[recvPos..recvLen] == old(recvBuf[recvPos + n..recvLen])
      ensures finSent == (!compressed && streamRemaining == 0 && streamFin)
      ensures events == c.events + ConsumedPiece(c, raw)
    {
      while recvPos < recvLen && streamRemaining > 0
        invariant
          || (&& recvPos == old(recvPos) && streamRemaining == old(streamRemaining)
              && streamMaskOff == old(streamMaskOff)
              && recvBuf[..] == old(recvBuf[..]) && !finSent && events == old(events))
          || (&& n > 0 && recvPos == old(recvPos) + n && streamRemaining == old(streamRemaining) - n
              && streamMaskOff == old(streamMaskOff) + n
              && recvBuf[recvPos..recvLen] == old(recvBuf[recvPos + n..recvLen])
              && finSent == (!compressed && streamRemaining == 0 && streamFin)
              && events == c.events + ConsumedPiece(c, raw))
        decreases streamRemaining
      {
        var avail := recvLen - recvPos;
        var chunk := if avail < cfg.cap then avail else cfg.cap;
        if chunk > streamRemaining {
          chunk := streamRemaining;
        }
        assert chunk == n;
        ConsumeChunk(chunk);
      }
    }

    // ---------------------------------------------------------------- complete frames

    /** A message in a single uncompressed frame. */
    method HandleSingle(h: Header, payload: seq<byte>)
      requires Valid() && status.Open? && mode == Idle && h.fin && !h.rsv1 && |payload| == h.len
      modifies this`status, this`events
      ensures Valid()
      ensures
        var out := SingleFrame(cfg, NO_MSG, h, payload);
        && events == old(events) + out.events
        && status == if out.bad then BadText else Open
    {
      if h.opcode == OPCODE_TEXT && cfg.checkUtf8 {
        var ok := Utf8.Validate(payload);
        Utf8.ValidIffUtf8(payload);
        if !ok {
          status := BadText;
          return;
        }
      }
      events := events + [Event.Message(payload, Range(0, |payload|), fragLen, h.opcode == OPCODE_BINARY, true, h.len)];
    }

    /** Begins a fragmented message on the accumulating path. */
    method BeginMessage(h: Header)
      requires Valid() && mode == Idle
      modifies this`mode, this`opcode, this`compressed, this`total, this`finSent, this`fragFrom
      ensures Valid() && mode == Frag && Message() == Begin(Frag, h)
    {
      opcode, total, finSent, mode, compressed := h.opcode, 0, false, Frag, h.rsv1;
      fragFrom := [];
    }

    method HandleTextBinary(h: Header, lo: nat, hi: nat) returns (err: bool)
      requires Valid() && status.Open? && streamRemaining == 0 && lo + h.len == hi <= cfg.cap
      requires !h.rsv1 || !h.fin
      modifies this`status, this`events, this`mode, this`opcode, this`compressed, this`total, this`finSent
      modifies this`fragLen, this`fragFrom, fragBuf
      ensures Valid() && (err <==> old(mode) != Idle)
      ensures err ==> status.Open? && events == old(events)
      ensures !err ==>
        var out := if h.fin then SingleFrame(cfg, NO_MSG, h, recvBuf[lo..hi])
                   else Fragment(cfg, Begin(Frag, h), h, recvBuf[lo..hi]);
        && events == old(events) + out.events
        && if out.bad then status == BadText else status.Open? && Message() == out.msg
    {
      if mode != Idle {
        return true;
      }
      err := false;
      if h.fin {
        HandleSingle(h, recvBuf[lo..hi]);
      } else {
        BeginMessage(h);
        FragAppend(lo, hi);
        FragFlush(false);
      }
    }

    method HandleCont(h: Header, lo: nat, hi: nat) returns (err: bool)
      requires Valid() && status.Open? && streamRemaining == 0 && lo + h.len == hi <= cfg.cap
      modifies this`status, this`events, this`mode, this`compressed, this`total, this`finSent
      modifies this`fragLen, this`fragFrom, fragBuf
      ensures Valid() && (err <==> old(mode) == Idle)
      ensures err ==> status.Open? && events == old(events)
      ensures !err ==>
        var out := Fragment(cfg, old(Message()), h, recvBuf[lo..hi]);
        && events == old(events) + out.events
        && if out.bad then status == BadText else status.Open? && Message() == out.msg
    {
      if mode == Idle {
        return true;
      }
      err := false;
      FragAppend(lo, hi);
      FragFlush(h.fin);
    }

    method HandleClose(payload: seq<byte>) returns (err: bool)
      requires status.Open?
      modifies this`status
      ensures
        if err then CloseVerdict(cfg, payload) == ProtocolError && status.Open?
        else status == CloseVerdict(cfg, payload)
    {
      err := false;
      if |payload| < 2 {
        status := PeerClosed(1000, []);
        return;
      }
      var code := payload[0] as int * 256 + payload[1];
      if !CloseCodeValid(code) {
        return true;
      }
      if |payload| > 2 && cfg.checkUtf8 {
        var ok := Utf8.Validate(payload[2..]);
        Utf8.ValidIffUtf8(payload[2..]);
        if !ok {
          status := BadReason;
          return;
        }
      }
      status := PeerClosed(code, payload[2..]);
    }

    /** The checks and the dispatch of the normal branch; true is a protocol error. */
    method HandleFrame(h: Header, lo: nat, hi: nat, ghost c: Conn, ghost r: Conn) returns (err: bool)
      requires Valid() && status.Open? && streamRemaining == 0 && lo + h.len == hi <= cfg.cap
      requires c == State() && r == WsReceiver.HandleFrame(cfg, c, h, recvBuf[lo..hi])
      modifies this`status, this`events, this`mode, this`opcode, this`compressed, this`total, this`finSent
      modifies this`fragLen, this`fragFrom, fragBuf
      ensures Valid()
      ensures
        if err then r == Fail(c, ProtocolError) && status.Open? && events == old(events)
        else State() == r
    {
      if h.key.Some? == cfg.isClient || h.rsv2 || h.rsv3 {
        return true;
      }
      if h.rsv1 && (h.opcode >= 8 || !cfg.deflate || h.opcode == OPCODE_CONT) {
        return true;
      }
      if h.rsv1 && h.fin {
        if mode != Idle {
          return true;
        }
        var payload := recvBuf[lo..hi];
        events := events
          + [Inflate(payload, Range(0, |payload|), fragLen), InflateTail, InflatedFin(h.opcode == OPCODE_BINARY)];
        return false;
      }
      err := Dispatch(h, lo, hi, c, r);
    }

    /** The control frame checks and the dispatch on the opcode. */
    method Dispatch(h: Header, lo: nat, hi: nat, ghost c: Conn, ghost r: Conn) returns (err: bool)
      requires Valid() && status.Open? && streamRemaining == 0 && lo + h.len == hi <= cfg.cap
      requires c == State() && r == WsReceiver.HandleFrame(cfg, c, h, recvBuf[lo..hi])
      requires h.key.Some? != cfg.isClient && !h.rsv2 && !h.rsv3
      requires h.rsv1 ==> !h.fin && cfg.deflate && h.opcode < 8 && h.opcode != OPCODE_CONT
      modifies this`status, this`events, this`mode, this`opcode, this`compressed, this`total, this`finSent
      modifies this`fragLen, this`fragFrom, fragBuf
      ensures Valid()
      ensures
        if err then r == Fail(c, ProtocolError) && status.Open? && events == old(events)
        else State() == r
    {
      if h.opcode >= 8 {
        err := DispatchControl(h, recvBuf[lo..hi], c, r);
      } else if h.opcode == OPCODE_TEXT || h.opcode == OPCODE_BINARY {
        err := HandleTextBinary(h, lo, hi);
      } else if h.opcode == OPCODE_CONT {
        err := HandleCont(h, lo, hi);
      } else {
        err := true;
      }
    }

    method DispatchControl(h: Header, payload: seq<byte>, ghost c: Conn, ghost r: Conn) returns (err: bool)
      requires Valid() && status.Open? && c == State() && r == WsReceiver.HandleFrame(cfg, c, h, payload)
      requires h.key.Some? != cfg.isClient && !h.rsv2 && !h.rsv3 && !h.rsv1 && h.opcode >= 8
      modifies this`status, this`events
      ensures Valid()
      ensures
        if err then r == Fail(c, ProtocolError) && status.Open? && events == old(events)
        else State() == r
    {
      if h.len > 125 || !h.fin {
        return true;
      }
      err := false;
      if h.opcode == OPCODE_CLOSE {
        err := HandleClose(payload);
      } else if h.opcode == OPCODE_PING {
        events := events + [PongSent(payload)];
      } else if h.opcode == OPCODE_PONG {
        events := events + [PongSeen(payload)];
      } else {
        err := true;
      }
    }

    // ---------------------------------------------------------------- the frame loop

    /** Unmasks the payload of a complete frame where it lies. */
    method UnmaskPayload(h: Header, lo: nat, hi: nat)
      requires Valid() && status.Open? && recvPos <= lo && lo + h.len == hi <= recvLen
      modifies recvBuf
      ensures recvBuf[lo..hi] == Unmask(h.key, old(recvBuf[lo..hi]), 0)
      ensures recvBuf[hi..recvLen] == old(recvBuf[hi..recvLen])
      ensures State() == old(State()).(buf := State().buf)
    {
      if h.key.Some? {
        ApplyMask(recvBuf, lo, hi, h.key.value, 0);
      }
    }

    /** Unmasking changes the receive buffer only, which handling the frame does not look at. */
    method UnmaskFrame(h: Header, lo: nat, hi: nat, ghost c: Conn, ghost payload: bytes, ghost r: Conn)
      returns (ghost c1: Conn, ghost r1: Conn)
      requires Valid() && status.Open? && recvPos <= lo <= hi <= recvLen && hi == lo + h.len
      requires c == State() && payload == Unmask(h.key, recvBuf[lo..hi], 0)
      requires r == WsReceiver.HandleFrame(cfg, c, h, payload)
      modifies recvBuf
      ensures c1 == State() && recvBuf[lo..hi] == payload && recvBuf[hi..recvLen] == old(recvBuf[hi..recvLen])
      ensures r1 == WsReceiver.HandleFrame(cfg, c1, h, payload)
      ensures r1 == if r.status.Open? then r.(buf := c1.buf) else r
    {
      UnmaskPayload(h, lo, hi);
      c1 := State();
      r1 := if r.status.Open? then r.(buf := c1.buf) else r;
      HandleFrameAside(cfg, c, c1, h, payload, r, r1);
    }

    /** Unmasks a complete frame, handles it and consumes it; `r` is what handling `payload` should give. */
    method WholeFrame(h: Header, n: nat, ghost c: Conn, ghost payload: bytes, ghost r: Conn) returns (err: bool)
      requires Valid() && status.Open? && streamRemaining == 0 && recvPos + n + h.len <= recvLen
      requires c == State() && payload == Unmask(h.key, recvBuf[recvPos + n..recvPos + n + h.len], 0)
      requires r == WsReceiver.HandleFrame(cfg, c, h, payload)
      modifies this`status, this`events, this`mode, this`opcode, this`compressed, this`total, this`finSent
      modifies this`fragLen, this`fragFrom, fragBuf, recvBuf, this`recvPos
      ensures Valid() && recvPos == old(recvPos) + if err then 0 else n + h.len
      ensures
        if err then r == Conn(ProtocolError, [], NO_MSG, NO_FRAME, events) && status.Open?
        else State() == if r.status.Open? then r.(buf := old(recvBuf[recvPos + n + h.len..recvLen])) else r
    {
      var lo, hi := recvPos + n, recvPos + n + h.len;
      ghost var c1, r1 := UnmaskFrame(h, lo, hi, c, payload, r);
      err := HandleFrame(h, lo, hi, c1, r1);
      if !err {
        recvPos := hi;
      }
    }

    /** Turns the message to streaming; the payload of the frame comes next. */
    method BeginStream(h: Header, n: nat, ghost c: Conn, ghost m: Msg, ghost es: seq<Event>)
      requires Valid() && status.Open? && streamRemaining == 0 && n <= recvLen - recvPos && c == State()
      requires m == SwitchToStream(Message(), h) && es == SwitchEvents(Message())
      modifies this`events, this`recvPos, this`streamRemaining, this`streamMaskOff, this`streamFin, this`streamKey
      modifies this`mode, this`opcode, this`compressed, this`total, this`fragLen, this`fragFrom
      ensures Valid() && recvPos >= old(recvPos) && streamRemaining == h.len
      ensures State() == Conn(Open, c.buf[n..], m, Large(h.len, h.fin, h.key, 0), c.events + es)
    {
      SubSlice(recvBuf[..], recvPos, recvLen, n, recvLen - recvPos);
      SwitchMessage(h, m, es);
      streamRemaining, streamFin, streamKey, streamMaskOff := h.len, h.fin, h.key, 0;
      recvPos := recvPos + n;
    }

    method SwitchMessage(h: Header, ghost m: Msg, ghost es: seq<Event>)
      requires Valid() && streamRemaining == 0
      requires m == SwitchToStream(Message(), h) && es == SwitchEvents(Message())
      modifies this`events, this`mode, this`opcode, this`compressed, this`total, this`fragLen, this`fragFrom
      ensures Valid() && mode == Stream && total >= h.len
      ensures Message() == m && events == old(events) + es
    {
      if mode == Frag {
        FragFlushTail();
        mode := Stream;
      } else if mode == Idle {
        opcode, total, mode, compressed := h.opcode, 0, Stream, h.rsv1;
        fragFrom := [];
      }
      total := total + h.len;
    }

    /** The checks of the streaming branch, and the start of the stream. */
    method StartStream(h: Header, n: nat) returns (err: bool)
      requires Valid() && status.Open? && streamRemaining == 0
      requires n <= recvLen - recvPos < n + h.len
      modifies this, recvBuf
      ensures Valid()
      ensures
        if err then StreamRejects(cfg, old(Message()).mode, h) && status.Open? && events == old(events)
        else State() == WsReceiver.StartStream(cfg, old(State()), h, n)
      ensures recvPos >= old(recvPos) && recvLen == old(recvLen)
    {
      if h.rsv2 || h.rsv3 || (h.rsv1 && (!cfg.deflate || h.opcode == OPCODE_CONT)) || h.key.Some? == cfg.isClient {
        return true;
      }
      if mode == Stream || mode == Frag {
        if h.opcode != OPCODE_CONT {
          return true;
        }
      } else if h.opcode != OPCODE_TEXT && h.opcode != OPCODE_BINARY {
        return true;
      }
      err := false;
      ghost var c := State();
      assert !StreamRejects(cfg, c.msg.mode, h);
      BeginStream(h, n, c, SwitchToStream(c.msg, h), SwitchEvents(c.msg));
      StreamConsume(State());
    }

    /** A frame that is complete in the buffer; `next` is what one iteration should give. */
    method StepOverFrame(h: Header, n: nat, ghost c: Conn, ghost next: Next) returns (err: bool)
      requires Valid() && status.Open? && streamRemaining == 0 && c == State()
      requires 0 < n && recvPos + n + h.len <= recvLen && next == StepOn(cfg, c, Complete(h, n))
      modifies this, recvBuf, fragBuf
      ensures Valid() && recvLen == old(recvLen) && recvPos >= old(recvPos)
      ensures
        if err then next == Next(Conn(ProtocolError, [], NO_MSG, NO_FRAME, events), false) && status.Open?
        else
          && State() == next.conn && (status.Open? <==> next.more)
          && recvPos > old(recvPos) && streamRemaining == 0
    {
      ghost var payload := Unmask(h.key, recvBuf[recvPos + n..recvPos + n + h.len], 0);
      ghost var r := WsReceiver.HandleFrame(cfg, c, h, payload);
      FrameInBuffer(cfg, c, h, n, recvBuf[..], recvPos, recvLen, payload, r, next);
      err := StepInto(h, n, c, payload, r, next);
    }

    method StepInto(h: Header, n: nat, ghost c: Conn, ghost payload: bytes, ghost r: Conn, ghost next: Next)
      returns (err: bool)
      requires Valid() && status.Open? && streamRemaining == 0 && c == State()
      requires 0 < n && recvPos + n + h.len <= recvLen
      requires payload == Unmask(h.key, recvBuf[recvPos + n..recvPos + n + h.len], 0)
      requires r == WsReceiver.HandleFrame(cfg, c, h, payload)
      requires next == After(r, recvBuf[recvPos + n + h.len..recvLen])
      modifies this, recvBuf, fragBuf
      ensures Valid() && recvLen == old(recvLen) && recvPos >= old(recvPos)
      ensures
        if err then next == Next(Conn(ProtocolError, [], NO_MSG, NO_FRAME, events), false) && status.Open?
        else
          && State() == next.conn && (status.Open? <==> next.more)
          && recvPos > old(recvPos) && streamRemaining == 0
    {
      err := WholeFrame(h, n, c, payload, r);
    }

    /** Every complete frame in the buffer, then possibly the start of a streamed one. */
    method ProcessFrames() returns (err: bool)
      requires Valid() && status.Open? && streamRemaining == 0
      modifies this, recvBuf, fragBuf
      ensures Valid()
      ensures
        var r := WsReceiver.ProcessFrames(cfg, old(State()));
        if err then r == Conn(ProtocolError, [], NO_MSG, NO_FRAME, events) && status.Open? else State() == r
      ensures recvPos >= old(recvPos) && recvLen == old(recvLen)
    {
      ghost var r := WsReceiver.ProcessFrames(cfg, State());
      while recvPos < recvLen && status.Open?
        invariant Valid() && streamRemaining == 0 && recvPos >= old(recvPos) && recvLen == old(recvLen)
        invariant if status.Open? then r == WsReceiver.ProcessFrames(cfg, State()) else r == State()
        decreases recvLen - recvPos
      {
        ghost var c := State();
        var avail := recvLen - recvPos;
        var p := ReadHeader(recvBuf, recvPos, recvLen);
        ghost var next := StepOn(cfg, c, p);
        ProcessNext(cfg, c, next);
        match p
        case NeedMore =>
          return false;
        case Invalid =>
          return true;
        case Complete(h, n) =>
          if avail < n + h.len {
            if n + h.len > cfg.cap / 2 {
              err := StartStream(h, n);
              return;
            }
            return false;
          }
          err := StepOverFrame(h, n, c, next);
          if err {
            return;
          }
      }
      err := false;
      if status.Open? {
        ProcessNext(cfg, State(), Next(State(), false));
      }
    }

    /** The frames that arrived together with the end of the handshake. */
    method Established()
      requires Valid() && status.Open? && streamRemaining == 0
      modifies this, recvBuf, fragBuf
      ensures Valid() && State() == WsReceiver.ProcessFrames(cfg, old(State()))
    {
      var err := ProcessFrames();
      if err {
        status := ProtocolError;
      }
    }

    /** The loop of streaming mode: bytes of the large frame, then the frames behind it. */
    method StreamedData() returns (err: bool)
      requires Valid() && status.Open? && mode == Stream
      modifies this, recvBuf, fragBuf
      ensures Valid()
      ensures
        var r := WsReceiver.FrameData(cfg, old(State()));
        if err then r == Conn(ProtocolError, [], NO_MSG, NO_FRAME, events) && status.Open? else State() == r
    {
      ghost var c := State();
      ghost var r := WsReceiver.FrameData(cfg, c);
      err := false;
      var begun := false;
      if recvPos == recvLen {
        FrameDataOfNothing(cfg, c);
      }
      while recvPos < recvLen && !err
        invariant Valid() && recvLen == old(recvLen)
        invariant
          if err then r == Conn(ProtocolError, [], NO_MSG, NO_FRAME, events) && status.Open?
          else State() == if begun then r else c
        invariant !begun ==> recvPos == old(recvPos) && status.Open? && mode == Stream
        invariant begun && !err && status.Open? ==> FrameDataSettled(cfg, r)
        decreases recvLen - recvPos
      {
        var prev := recvPos;
        if !begun {
          FrameDataStops(cfg, c);
        }
        if streamRemaining > 0 && status.Open? {
          StreamConsume(State());
        } else {
          assert begun || WsReceiver.StreamConsume(c) == c;
        }
        if streamRemaining == 0 && status.Open? {
          err := ProcessFrames();
        }
        begun := true;
        if recvPos == prev {
          break;
        }
      }
    }

    /** What the buffer holds after a push. */
    method FrameData()
      requires Valid() && status.Open?
      modifies this, recvBuf, fragBuf
      ensures Valid() && State() == WsReceiver.FrameData(cfg, old(State()))
    {
      var err := false;
      if mode == Stream {
        err := StreamedData();
      } else {
        assert WsReceiver.StreamConsume(State()) == State();
        err := ProcessFrames();
      }
      if err {
        status := ProtocolError;
      }
    }

    /** Moves the unconsumed residue to the front of the buffer. */
    method MoveResidue()
      requires Valid()
      modifies this`recvPos, this`recvLen, recvBuf
      ensures Valid() && recvPos == 0 && recvLen == old(recvLen) - old(recvPos)
      ensures recvBuf[..recvLen] == old(recvBuf[recvPos..recvLen])
    {
      if recvPos > 0 {
        var rem := recvLen - recvPos;
        forall i | 0 <= i < rem {
          recvBuf[i] := recvBuf[recvPos + i];
        }
        recvPos, recvLen := 0, rem;
      }
    }

    /** One push: the residue, then the push, then whatever can be processed. */
    method OnData(data: seq<byte>)
      requires Valid()
      modifies this, recvBuf, fragBuf
      ensures Valid() && State() == WsReceiver.OnData(cfg, old(State()), data)
    {
      if !status.Open? {
        return;
      }
      MoveResidue();
      if recvLen + |data| > cfg.cap {
        status := Overflow;
        return;
      }
      AppendPush(data);
      FrameData();
    }

    method AppendPush(data: seq<byte>)
      requires Valid() && status.Open? && recvPos == 0 && recvLen + |data| <= cfg.cap
      modifies this`recvLen, recvBuf
      ensures Valid() && State() == old(State()).(buf := old(recvBuf[..recvLen]) + data)
    {
      ghost var was := recvBuf[..recvLen];
      forall i | 0 <= i < |data| {
        recvBuf[recvLen + i] := data[i];
      }
      recvLen := recvLen + |data|;
      assert recvBuf[0..recvLen] == was + data;
    }
  }

  lemma RunNext(cfg: Config, c: Conn, c1: Conn, pushes: seq<bytes>, i: nat)
    requires i < |pushes| && c1 == WsReceiver.OnData(cfg, c, pushes[i])
    ensures RunFrom(cfg, c, pushes[i..]) == RunFrom(cfg, c1, pushes[i + 1..])
  {
    assert pushes[i..][0] == pushes[i] && pushes[i..][1..] == pushes[i + 1..];
  }

  /** A whole connection on the buffers ends where the function of the whole run says. */
  method RunConnection(cfg: Config, leftover: bytes, pushes: seq<bytes>) returns (r: Receiver)
    requires cfg.cap >= 1024 && |leftover| <= cfg.cap
    ensures fresh(r) && r.Valid() && r.cfg == cfg && r.State() == Run(cfg, leftover, pushes)
  {
    r := new Receiver(cfg, leftover);
    r.Established();
    ghost var end := RunFrom(cfg, r.State(), pushes);
    assert pushes[0..] == pushes;
    for i := 0 to |pushes|
      invariant fresh(r) && fresh(r.recvBuf) && fresh(r.fragBuf) && r.Valid() && r.cfg == cfg
      invariant RunFrom(cfg, r.State(), pushes[i..]) == end
    {
      ghost var c := r.State();
      r.OnData(pushes[i]);
      RunNext(cfg, c, r.State(), pushes, i);
    }
  }

  /** After a push nothing more can be processed. */
  ghost predicate FrameDataSettled(cfg: Config, r: Conn) {
    (r.large.remaining > 0 ==> r.buf == []) && (r.large.remaining == 0 ==> WsReceiver.ProcessFrames(cfg, r) == r)
  }

  lemma {:induction false} ProcessStops(cfg: Config, c: Conn)
    requires Wf(cfg, c) && c.status.Open? && c.large.remaining == 0 && |c.buf| <= cfg.cap
    ensures var r := WsReceiver.ProcessFrames(cfg, c); r.status.Open? ==> FrameDataSettled(cfg, r)
    decreases |c.buf|
  {
    var next := Step(cfg, c);
    StepWf(cfg, c, ParseHeader(c.buf), next);
    ProcessNext(cfg, c, next);
    if next.more {
      ProcessStops(cfg, next.conn);
    } else if next.conn.status.Open? && next.conn.large.remaining == 0 {
      StepStops(cfg, c, ParseHeader(c.buf));
    }
  }

  lemma StepStops(cfg: Config, c: Conn, p: Parsed)
    requires Wf(cfg, c) && c.status.Open? && c.large.remaining == 0 && (p.Complete? ==> 0 < p.size <= |c.buf|)
    requires var next := StepOn(cfg, c, p); !next.more && next.conn.status.Open? && next.conn.large.remaining == 0
    ensures StepOn(cfg, c, p).conn == c
  {
    if p.Complete? && |c.buf| < p.size + p.header.len {
      StartStreamWf(cfg, c, p.header, p.size);
    }
  }

  lemma FrameDataStops(cfg: Config, c: Conn)
    requires Wf(cfg, c) && c.status.Open? && |c.buf| <= cfg.cap
    ensures var r := WsReceiver.FrameData(cfg, c); r.status.Open? ==> FrameDataSettled(cfg, r)
  {
    StreamConsumeWf(cfg, c);
    var c1 := WsReceiver.StreamConsume(c);
    if c1.large.remaining == 0 {
      ProcessStops(cfg, c1);
    }
  }

  lemma FrameDataOfNothing(cfg: Config, c: Conn)
    requires c.buf == []
    ensures WsReceiver.FrameData(cfg, c) == c
  {
    assert WsReceiver.StreamConsume(c) == c;
    ProcessNext(cfg, c, Next(c, false));
  }
}
