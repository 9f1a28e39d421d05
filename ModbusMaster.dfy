/**
 * CModbusMaster: the master request/response engine. One transaction is in
 * flight at a time; requests are encoded into the framer's buffer, replies
 * are decoded from it and handed to the application handler, and poll()
 * applies the response timeout and the broadcast turnaround delay.
 *
 * The clock is not modelled: each method that reads it takes the current
 * tick count as `now`. Likewise begin_send's answer is the parameter `grant`.
 */
module ModbusMaster {
  import opened ModbusTypes
  import opened ModbusInterface
  import opened MasterHandlers
  import opened MasterPdu

  datatype MasterState =
    | Idle
    | WaitingForReply
    | ProcessingReply
    | WaitingTurnaroundReply
    | ProcessingError

  /** The engine's mutable fields: state and transaction context. */
  datatype Snapshot = Snapshot(
    state: MasterState,
    timer: Tick,
    slaveAddress: u16,
    readStartingAddress: u16,
    writeStartingAddress: u16,
    writeN: u16)

  const DEFAULT_RESPONSE_TIME_OUT_MS: nat := 200
  const DEFAULT_TURNAROUND_DELAY_MS: nat := 1000

  /**
   * ms * 1000 / microseconds_per_tick: ms is an unsigned int, so the product
   * wraps at the width of unsigned int (2^16 or 2^32) before the division by
   * the unsigned long microseconds per tick.
   */
  function TimeoutTicks(width: UIntWidth, ms: nat, usPerTick: nat): (r: Tick)
    requires ms < UIntModulus(width) && usPerTick > 0
    ensures r as int * usPerTick <= (ms * 1000) % UIntModulus(width) < (r as int + 1) * usPerTick
  {
    var us := (ms * 1000) % UIntModulus(width);
    DivisionBound(us, usPerTick);
    (us / usPerTick) as Tick
  }

  lemma {:induction false} MulMonotone(a: nat, b: nat, c: nat)
    requires a <= b
    ensures a * c <= b * c
  {
    if c > 0 {
      MulMonotone(a, b, c - 1);
      assert a * c == a * (c - 1) + a;
      assert b * c == b * (c - 1) + b;
    }
  }

  lemma DivisionBound(x: nat, d: nat)
    requires d > 0
    ensures x / d <= x
  {
    MulMonotone(1, d, x / d);
    assert d * (x / d) <= x;
  }

  /** Ticks from since to now on a counter that wraps at 2^32. */
  function Elapsed(now: Tick, since: Tick): (r: Tick)
    ensures (since as int + r as int) % TICK_MODULUS == now as int
  {
    ((now as int - since as int) % TICK_MODULUS) as Tick
  }

  /** The state poll() leaves; timeoutAnswer is what response_time_out() returns. */
  function PollNext(s: MasterState, elapsed: Tick, responseTimeOut: Tick, turnaroundDelay: Tick, timeoutAnswer: bool): (r: MasterState)
    ensures s == WaitingForReply ==>
              r == (if elapsed <= responseTimeOut then WaitingForReply
                    else if timeoutAnswer then Idle else ProcessingError)
    ensures s == WaitingTurnaroundReply ==>
              r == (if elapsed >= turnaroundDelay then Idle else WaitingTurnaroundReply)
    ensures s in {Idle, ProcessingReply, ProcessingError} ==> r == s
  {
    match s
    case WaitingForReply =>
      if elapsed <= responseTimeOut then s
      else if timeoutAnswer then Idle else ProcessingError
    case WaitingTurnaroundReply =>
      if elapsed >= turnaroundDelay then Idle else s
    case _ => s
  }

  /** The state a request leaves: broadcasts (slave 0) draw no reply. */
  function AfterSend(slave: u8): (r: MasterState)
    ensures r.WaitingForReply? || r.WaitingTurnaroundReply?
    ensures r.WaitingTurnaroundReply? <==> slave == 0
  {
    if slave == 0 then WaitingTurnaroundReply else WaitingForReply
  }

  /** The state frame_ready settles in once it has dispatched a reply. */
  function Settled(handler: MasterHandler, func: u8, call: Option<HandlerCall>): (r: MasterState)
    ensures r == Idle <==> call.Some? && Decisive(func) && handler.Answer(call.value)
    ensures r != Idle ==> r == ProcessingError
  {
    if call.Some? && Decisive(func) && handler.Answer(call.value) then Idle else ProcessingError
  }

  /** The five bytes read_registers_req writes: function, address and quantity, each big-endian. */
  method PutReadRequest(buffer: array<u8>, func: u8, address: u16, n: u16)
    requires READ_REQUEST_LEN <= buffer.Length
    modifies buffer
    ensures buffer[..] == Overwrite(old(buffer[..]), ReadRequestPdu(func, address, n))
  {
    buffer[0] := func;
    buffer[1] := HighByte(address as nat);
    buffer[2] := LowByte(address as nat);
    buffer[3] := HighByte(n as nat);
    buffer[4] := LowByte(n as nat);
  }

  /**
   * The bytes write_registers_req writes: function and address, for function
   * 0x10 the count and byte count, then the values.
   */
  method PutWriteRequest(buffer: array<u8>, func: u8, address: u16, data: seq<u16>)
    requires |WriteRequestPdu(func, address, data)| <= buffer.Length
    modifies buffer
    ensures buffer[..] == Overwrite(old(buffer[..]), WriteRequestPdu(func, address, data))
  {
    var n := |data|;
    buffer[0] := func;
    buffer[1] := HighByte(address as nat);
    buffer[2] := LowByte(address as nat);
    var k := 3;
    if func == WRITE_MULTIPLE_REGISTERS {
      buffer[3] := HighByte(n);
      buffer[4] := LowByte(n);
      buffer[5] := LowByte(2 * n);
      k := 6;
    }
    ghost var header := WriteRequestHeader(func, address, n);
    assert buffer[..k] == header;
    assert buffer[k..] == old(buffer[..])[k..];
    EncodeValuesInto(buffer, k, data);
    assert buffer[..] == header + EncodeValues(data) + old(buffer[..])[k + 2 * n..];
  }

  /**
   * The bytes read_write_registers_req writes: the ten header bytes, then
   * the values.
   */
  method PutReadWriteRequest(buffer: array<u8>, func: u8, readAddress: u16, readN: u16, writeAddress: u16,
                             data: seq<u16>)
    requires |ReadWriteRequestPdu(func, readAddress, readN, writeAddress, data)| <= buffer.Length
    modifies buffer
    ensures buffer[..] == Overwrite(old(buffer[..]), ReadWriteRequestPdu(func, readAddress, readN, writeAddress, data))
  {
    var n := |data|;
    buffer[0] := func;
    PutWord(buffer, 1, readAddress);
    PutWord(buffer, 3, readN);
    PutWord(buffer, 5, writeAddress);
    buffer[7] := HighByte(n);
    buffer[8] := LowByte(n);
    buffer[9] := LowByte(2 * n);
    ghost var header := ReadWriteRequestHeader(func, readAddress, readN, writeAddress, n);
    assert buffer[..10] == header;
    assert buffer[10..] == old(buffer[..])[10..];
    EncodeValuesInto(buffer, 10, data);
    assert buffer[..] == header + EncodeValues(data) + old(buffer[..])[10 + 2 * n..];
  }

  /**
   * Writes the data bytes of a write request from start on: each value goes
   * through htons and is then stored most significant byte first.
   */
  method EncodeValuesInto(buffer: array<u8>, start: nat, data: seq<u16>)
    requires start + 2 * |data| <= buffer.Length
    modifies buffer
    ensures buffer[..] == old(buffer[..start]) + EncodeValues(data) + old(buffer[start + 2 * |data|..])
  {
    ghost var encoded := EncodeValues(data);
    var i := 0;
    var j := start;
    while i < |data|
      invariant 0 <= i <= |data| && j == start + 2 * i
      invariant forall k :: start <= k < j ==> buffer[k] == encoded[k - start]
      invariant forall k :: 0 <= k < buffer.Length && !(start <= k < j) ==> buffer[k] == old(buffer[k])
    {
      EncodedPair(data, i);
      PutWord(buffer, j, Htons(data[i]));
      i := i + 1;
      j := j + 2;
    }
    SplicePointwise(old(buffer[..]), buffer[..], start, encoded);
  }

  /** One word stored most significant byte first at j. */
  method PutWord(buffer: array<u8>, j: nat, d: u16)
    requires j + 1 < buffer.Length
    modifies buffer
    ensures buffer[j] == HighByte(d as nat) && buffer[j + 1] == LowByte(d as nat)
    ensures forall k :: 0 <= k < buffer.Length && k != j && k != j + 1 ==> buffer[k] == old(buffer[k])
  {
    buffer[j] := HighByte(d as nat);
    buffer[j + 1] := LowByte(d as nat);
  }

  /**
   * The pointer-reinterpreting loop of read_registers_rsp on a little-endian
   * host: each word is read low byte first, passed through ntohs and stored
   * back, which exchanges the two bytes of every pair.
   */
  method SwapToHostOrder(buffer: array<u8>, start: nat, count: nat)
    requires start + 2 * count <= buffer.Length
    modifies buffer
    ensures buffer[..] == SwapPairs(old(buffer[..]), start, count)
  {
    var i := 0;
    while i < count
      invariant 0 <= i <= count
      invariant forall k :: 0 <= k < i ==>
                  buffer[start + 2 * k] == old(buffer[start + 2 * k + 1])
                  && buffer[start + 2 * k + 1] == old(buffer[start + 2 * k])
      invariant forall j :: 0 <= j < buffer.Length && !(start <= j < start + 2 * i) ==> buffer[j] == old(buffer[j])
    {
      var w := Ntohs(Word(buffer[start + 2 * i + 1], buffer[start + 2 * i]));
      buffer[start + 2 * i] := LowByte(w as nat);
      buffer[start + 2 * i + 1] := HighByte(w as nat);
      i := i + 1;
    }
    SwapPairsPointwise(old(buffer[..]), buffer[..], start, count);
  }

  class ModbusMaster {
    const handler: MasterHandler
    const framer: Framer
    const responseTimeOut: Tick
    const turnaroundDelay: Tick

    var state: MasterState
    var timer: Tick
    var slaveAddress: u16
    var readStartingAddress: u16
    var writeStartingAddress: u16
    var writeN: u16

    ghost predicate Valid() {
      framer.Valid() && handler.Valid()
    }

    ghost function Snap(): Snapshot
      reads this
    {
      Snapshot(state, timer, slaveAddress, readStartingAddress, writeStartingAddress, writeN)
    }

    /** Timeouts are converted from milliseconds to ticks once, at construction. */
    constructor (handler: MasterHandler, framer: Framer, width: UIntWidth, usPerTick: nat,
                 responseTimeOutMs: nat := DEFAULT_RESPONSE_TIME_OUT_MS,
                 turnaroundDelayMs: nat := DEFAULT_TURNAROUND_DELAY_MS)
      requires responseTimeOutMs < UIntModulus(width) && turnaroundDelayMs < UIntModulus(width)
      requires usPerTick > 0
      requires framer.Valid() && handler.Valid()
      ensures Valid() && this.handler == handler && this.framer == framer
      ensures responseTimeOut == TimeoutTicks(width, responseTimeOutMs, usPerTick)
      ensures turnaroundDelay == TimeoutTicks(width, turnaroundDelayMs, usPerTick)
      ensures Snap() == Snapshot(Idle, 0, 0, 0, 0, 0)
    {
      this.handler := handler;
      this.framer := framer;
      state := Idle;
      timer := 0;
      slaveAddress := 0;
      readStartingAddress := 0;
      writeStartingAddress := 0;
      writeN := 0;
      responseTimeOut := TimeoutTicks(width, responseTimeOutMs, usPerTick);
      turnaroundDelay := TimeoutTicks(width, turnaroundDelayMs, usPerTick);
    }

    /** poll(): applies the response timeout and the turnaround delay. */
    method Poll(now: Tick)
      requires Valid()
      modifies this`state, handler, handler.Store()
      ensures Valid()
      ensures Snap() == old(Snap()).(state := PollNext(old(state), Elapsed(now, timer), responseTimeOut,
                                                       turnaroundDelay, handler.Answer(ResponseTimeOut)))
      ensures handler.calls == old(handler.calls)
                + (if old(state) == WaitingForReply && Elapsed(now, timer) > responseTimeOut
                   then [ResponseTimeOut] else [])
      ensures handler.Registers() == old(handler.Registers())
    {
      match state {
        case WaitingForReply =>
          if Elapsed(now, timer) <= responseTimeOut {
            return;
          }
          var recovered := handler.Handle(ResponseTimeOut);
          state := if recovered then Idle else ProcessingError;
        case WaitingTurnaroundReply =>
          if Elapsed(now, timer) >= turnaroundDelay {
            state := Idle;
          }
        case _ =>
      }
    }

    /** The checks sanity_check makes before reserving the buffer, in its order. */
    ghost predicate Admits(n: nat, len: nat)
      reads this, framer
      ensures Admits(n, len) ==> state == Idle && n <= MAX_REQUEST_COUNT && len <= framer.bufferMax
      ensures state != Idle ==> !Admits(n, len)
    {
      state == Idle && !CountRejected(n) && len <= framer.bufferMax
    }

    /**
     * The outcome of a request whose checks are made on count n and length
     * len and whose frame is pdu: on failure nothing but the link layer's
     * record of a begin_send changes; on success the frame is in the buffer,
     * buffer_len is len, the frame address is the slave, send() has been
     * called once, and the engine holds the new context and waits.
     */
    twostate predicate RequestDone(n: nat, len: nat, pdu: seq<u8>, context: Snapshot,
                                   slave: u8, now: Tick, grant: bool, ok: bool)
      reads this, framer, framer.buffer
    {
      var checked := old(Admits(n, len));
      && ok == (checked && grant)
      && framer.log == old(framer.log) + (if checked then [LinkCall.BeginSend] else [])
                                       + (if ok then [LinkCall.Send] else [])
      && (!ok ==> Snap() == old(Snap()) && framer.Fields() == old(framer.Fields())
                  && framer.buffer[..] == old(framer.buffer[..]))
      && (ok ==> |pdu| <= framer.buffer.Length
                 && framer.buffer[..] == Overwrite(old(framer.buffer[..]), pdu)
                 && framer.Fields() == old(framer.Fields()).(bufferLen := len, frameAddress := slave)
                 && Snap() == context.(state := AfterSend(slave), timer := now, slaveAddress := slave as u16))
    }

    /** sanity_check: begin_send is only asked once every earlier check passed. */
    method SanityCheck(n: nat, len: nat, grant: bool) returns (ok: bool)
      requires Valid()
      modifies framer`log
      ensures ok == (Admits(n, len) && grant)
      ensures framer.log == old(framer.log) + (if Admits(n, len) then [LinkCall.BeginSend] else [])
    {
      if state != Idle {
        return false;
      }
      if CountRejected(n) {
        return false;
      }
      if framer.bufferMax < len {
        return false;
      }
      ok := framer.BeginSend(grant);
    }

    /** send_and_wait: releases the buffer to the link layer and starts waiting. */
    method SendAndWait(slave: u8, len: nat, now: Tick)
      requires Valid()
      modifies this, framer`bufferLen, framer`log
      ensures Valid()
      ensures framer.Fields() == old(framer.Fields()).(bufferLen := len)
      ensures framer.log == old(framer.log) + [LinkCall.Send]
      ensures Snap() == old(Snap()).(state := AfterSend(slave), timer := now, slaveAddress := slave as u16)
    {
      framer.SetBufferLen(len);
      framer.Send();
      timer := now;
      slaveAddress := slave as u16;
      state := if slave == 0 then WaitingTurnaroundReply else WaitingForReply;
    }

    /** read_registers_req (functions 0x03 and 0x04). */
    method ReadRegistersReq(func: u8, slave: u8, address: u16, n: u16, now: Tick, grant: bool) returns (ok: bool)
      requires Valid()
      modifies this, framer, framer.buffer
      ensures Valid()
      ensures RequestDone(n as nat, READ_REQUEST_LEN, ReadRequestPdu(func, address, n),
                          old(Snap()).(readStartingAddress := address), slave, now, grant, ok)
    {
      ok := SanityCheck(n as nat, READ_REQUEST_LEN, grant);
      if !ok {
        return;
      }
      framer.SetFrameAddress(slave);
      PutReadRequest(framer.buffer, func, address, n);
      readStartingAddress := address;
      SendAndWait(slave, READ_REQUEST_LEN, now);
    }

    /** write_registers_req (functions 0x06 and 0x10). */
    method WriteRegistersReq(func: u8, slave: u8, address: u16, data: seq<u16>, now: Tick, grant: bool) returns (ok: bool)
      requires Valid()
      requires !CountRejected(|data|) && WriteRequestLen(|data|) <= framer.bufferMax ==>
                 |WriteRequestPdu(func, address, data)| <= framer.buffer.Length
      modifies this, framer, framer.buffer
      ensures Valid()
      ensures RequestDone(|data|, WriteRequestLen(|data|), WriteRequestPdu(func, address, data),
                          old(Snap()).(writeStartingAddress := address), slave, now, grant, ok)
    {
      var n := |data|;
      ok := SanityCheck(n, WriteRequestLen(n), grant);
      if !ok {
        return;
      }
      framer.SetFrameAddress(slave);
      PutWriteRequest(framer.buffer, func, address, data);
      writeStartingAddress := address;
      SendAndWait(slave, WriteRequestLen(n), now);
    }

    /** read_write_registers_req (function 0x17): only the read count is checked. */
    method ReadWriteRegistersReq(func: u8, slave: u8, readAddress: u16, readN: u16, writeAddress: u16,
                                 data: seq<u16>, now: Tick, grant: bool) returns (ok: bool)
      requires Valid()
      requires !CountRejected(readN as nat) && ReadWriteRequestLen(readN as nat, |data|) <= framer.bufferMax ==>
                 |ReadWriteRequestPdu(func, readAddress, readN, writeAddress, data)| <= framer.buffer.Length
      modifies this, framer, framer.buffer
      ensures Valid()
      ensures RequestDone(readN as nat, ReadWriteRequestLen(readN as nat, |data|),
                          ReadWriteRequestPdu(func, readAddress, readN, writeAddress, data),
                          old(Snap()).(readStartingAddress := readAddress, writeStartingAddress := writeAddress,
                                       writeN := (|data| % 0x1_0000) as u16),
                          slave, now, grant, ok)
    {
      var n := |data|;
      var len := ReadWriteRequestLen(readN as nat, n);
      ok := SanityCheck(readN as nat, len, grant);
      if !ok {
        return;
      }
      framer.SetFrameAddress(slave);
      PutReadWriteRequest(framer.buffer, func, readAddress, readN, writeAddress, data);
      readStartingAddress := readAddress;
      writeStartingAddress := writeAddress;
      writeN := (n % 0x1_0000) as u16;
      SendAndWait(slave, len, now);
    }

    /** The coil and discrete-input requests are stubs that always fail. */
    method ReadCoilsReq() returns (ok: bool)
      ensures !ok
    {
      ok := false;
    }

    method ReadDiscreteInputsReq() returns (ok: bool)
      ensures !ok
    {
      ok := false;
    }

    method WriteSingleCoilReq() returns (ok: bool)
      ensures !ok
    {
      ok := false;
    }

    method WriteMultipleCoilsReq() returns (ok: bool)
      ensures !ok
    {
      ok := false;
    }

    /** read_holding_registers_req: read_registers_req with function 0x03. */
    method ReadHoldingRegistersReq(slave: u8, address: u16, n: u16, now: Tick, grant: bool) returns (ok: bool)
      requires Valid()
      modifies this, framer, framer.buffer
      ensures Valid()
      ensures RequestDone(n as nat, READ_REQUEST_LEN, ReadRequestPdu(READ_HOLDING_REGISTERS, address, n),
                          old(Snap()).(readStartingAddress := address), slave, now, grant, ok)
    {
      ok := ReadRegistersReq(READ_HOLDING_REGISTERS, slave, address, n, now, grant);
    }

    /** read_input_registers_req: read_registers_req with function 0x04. */
    method ReadInputRegistersReq(slave: u8, address: u16, n: u16, now: Tick, grant: bool) returns (ok: bool)
      requires Valid()
      modifies this, framer, framer.buffer
      ensures Valid()
      ensures RequestDone(n as nat, READ_REQUEST_LEN, ReadRequestPdu(READ_INPUT_REGISTERS, address, n),
                          old(Snap()).(readStartingAddress := address), slave, now, grant, ok)
    {
      ok := ReadRegistersReq(READ_INPUT_REGISTERS, slave, address, n, now, grant);
    }

    /** write_single_register_req: write_registers_req with function 0x06 and the one value. */
    method WriteSingleRegisterReq(slave: u8, address: u16, value: u16, now: Tick, grant: bool) returns (ok: bool)
      requires Valid()
      modifies this, framer, framer.buffer
      ensures Valid()
      ensures RequestDone(1, WriteRequestLen(1), WriteRequestPdu(WRITE_SINGLE_REGISTER, address, [value]),
                          old(Snap()).(writeStartingAddress := address), slave, now, grant, ok)
    {
      ok := WriteRegistersReq(WRITE_SINGLE_REGISTER, slave, address, [value], now, grant);
    }

    /**
     * write_multiple_registers_req over an initializer list or a pointer
     * range [begin, end): function 0x10 with exactly those values.
     */
    method WriteMultipleRegistersReq(slave: u8, address: u16, data: seq<u16>, now: Tick, grant: bool) returns (ok: bool)
      requires Valid()
      requires !CountRejected(|data|) && WriteRequestLen(|data|) <= framer.bufferMax ==>
                 |WriteRequestPdu(WRITE_MULTIPLE_REGISTERS, address, data)| <= framer.buffer.Length
      modifies this, framer, framer.buffer
      ensures Valid()
      ensures RequestDone(|data|, WriteRequestLen(|data|), WriteRequestPdu(WRITE_MULTIPLE_REGISTERS, address, data),
                          old(Snap()).(writeStartingAddress := address), slave, now, grant, ok)
    {
      ok := WriteRegistersReq(WRITE_MULTIPLE_REGISTERS, slave, address, data, now, grant);
    }

    /** write_multiple_registers_req over the first n entries of an array. */
    method WriteMultipleRegistersArrayReq(slave: u8, address: u16, n: nat, data: array<u16>, now: Tick, grant: bool)
      returns (ok: bool)
      requires Valid() && n <= data.Length
      requires !CountRejected(n) && WriteRequestLen(n) <= framer.bufferMax ==>
                 |WriteRequestPdu(WRITE_MULTIPLE_REGISTERS, address, data[..n])| <= framer.buffer.Length
      modifies this, framer, framer.buffer
      ensures Valid()
      ensures RequestDone(n, WriteRequestLen(n), WriteRequestPdu(WRITE_MULTIPLE_REGISTERS, address, old(data[..n])),
                          old(Snap()).(writeStartingAddress := address), slave, now, grant, ok)
    {
      ok := WriteMultipleRegistersReq(slave, address, data[..n], now, grant);
    }

    /**
     * The read_write_multiple_registers_req overloads that name both
     * addresses and a read count: the count, a size_t, is narrowed to the
     * 16 bits of the private method's parameter.
     */
    method ReadWriteMultipleRegistersReq(slave: u8, readAddress: u16, readN: nat, writeAddress: u16,
                                         data: seq<u16>, now: Tick, grant: bool) returns (ok: bool)
      requires Valid()
      requires var rn := (readN % 0x1_0000) as u16;
               !CountRejected(rn as nat) && ReadWriteRequestLen(rn as nat, |data|) <= framer.bufferMax ==>
                 |ReadWriteRequestPdu(READ_WRITE_MULTIPLE_REGISTERS, readAddress, rn, writeAddress, data)|
                   <= framer.buffer.Length
      modifies this, framer, framer.buffer
      ensures Valid()
      ensures var rn := (readN % 0x1_0000) as u16;
              RequestDone(rn as nat, ReadWriteRequestLen(rn as nat, |data|),
                          ReadWriteRequestPdu(READ_WRITE_MULTIPLE_REGISTERS, readAddress, rn, writeAddress, data),
                          old(Snap()).(readStartingAddress := readAddress, writeStartingAddress := writeAddress,
                                       writeN := (|data| % 0x1_0000) as u16),
                          slave, now, grant, ok)
    {
      ok := ReadWriteRegistersReq(READ_WRITE_MULTIPLE_REGISTERS, slave, readAddress, (readN % 0x1_0000) as u16,
                                  writeAddress, data, now, grant);
    }

    /**
     * The single-list and pointer-range read_write overloads: one address
     * for both halves, the data length as the read count.
     */
    method ReadWriteSameRegistersReq(slave: u8, address: u16, data: seq<u16>, now: Tick, grant: bool) returns (ok: bool)
      requires Valid()
      requires var rn := (|data| % 0x1_0000) as u16;
               !CountRejected(rn as nat) && ReadWriteRequestLen(rn as nat, |data|) <= framer.bufferMax ==>
                 |ReadWriteRequestPdu(READ_WRITE_MULTIPLE_REGISTERS, address, rn, address, data)| <= framer.buffer.Length
      modifies this, framer, framer.buffer
      ensures Valid()
      ensures var rn := (|data| % 0x1_0000) as u16;
              RequestDone(rn as nat, ReadWriteRequestLen(rn as nat, |data|),
                          ReadWriteRequestPdu(READ_WRITE_MULTIPLE_REGISTERS, address, rn, address, data),
                          old(Snap()).(readStartingAddress := address, writeStartingAddress := address,
                                       writeN := rn),
                          slave, now, grant, ok)
    {
      ok := ReadWriteMultipleRegistersReq(slave, address, |data|, address, data, now, grant);
    }

    /** The array read_write overload: the first n entries, n also the read count. */
    method ReadWriteSameRegistersArrayReq(slave: u8, address: u16, n: nat, data: array<u16>, now: Tick, grant: bool)
      returns (ok: bool)
      requires Valid() && n <= data.Length
      requires var rn := (n % 0x1_0000) as u16;
               !CountRejected(rn as nat) && ReadWriteRequestLen(rn as nat, n) <= framer.bufferMax ==>
                 |ReadWriteRequestPdu(READ_WRITE_MULTIPLE_REGISTERS, address, rn, address, data[..n])|
                   <= framer.buffer.Length
      modifies this, framer, framer.buffer
      ensures Valid()
      ensures var rn := (n % 0x1_0000) as u16;
              RequestDone(rn as nat, ReadWriteRequestLen(rn as nat, n),
                          ReadWriteRequestPdu(READ_WRITE_MULTIPLE_REGISTERS, address, rn, address, old(data[..n])),
                          old(Snap()).(readStartingAddress := address, writeStartingAddress := address,
                                       writeN := rn),
                          slave, now, grant, ok)
    {
      ok := ReadWriteSameRegistersReq(slave, address, data[..n], now, grant);
    }

    /** The array read_write overload naming both addresses, a read count and a write count. */
    method ReadWriteMultipleRegistersArrayReq(slave: u8, readAddress: u16, readN: nat, writeAddress: u16,
                                              writeN: nat, data: array<u16>, now: Tick, grant: bool) returns (ok: bool)
      requires Valid() && writeN <= data.Length
      requires var rn := (readN % 0x1_0000) as u16;
               !CountRejected(rn as nat) && ReadWriteRequestLen(rn as nat, writeN) <= framer.bufferMax ==>
                 |ReadWriteRequestPdu(READ_WRITE_MULTIPLE_REGISTERS, readAddress, rn, writeAddress, data[..writeN])|
                   <= framer.buffer.Length
      modifies this, framer, framer.buffer
      ensures Valid()
      ensures var rn := (readN % 0x1_0000) as u16;
              RequestDone(rn as nat, ReadWriteRequestLen(rn as nat, writeN),
                          ReadWriteRequestPdu(READ_WRITE_MULTIPLE_REGISTERS, readAddress, rn, writeAddress,
                                              old(data[..writeN])),
                          old(Snap()).(readStartingAddress := readAddress, writeStartingAddress := writeAddress,
                                       writeN := (writeN % 0x1_0000) as u16),
                          slave, now, grant, ok)
    {
      ok := ReadWriteMultipleRegistersReq(slave, readAddress, readN, writeAddress, data[..writeN], now, grant);
    }

    /** Whether frame_ready goes past its first two guards. */
    ghost predicate Expects(f: Framer)
      reads this, f
    {
      f.bufferLen != 0 && state == WaitingForReply
    }

    /** frame_ready: handles a frame the link layer has received. */
    method FrameReady(f: Framer, now: Tick)
      requires Valid() && f.Valid() && f.buffer.Length >= MODBUS_DATA_BUFFER_SIZE
      modifies this`state, this`timer, f`log, f.buffer, handler, handler.Store()
      ensures Valid()
      ensures f.log == old(f.log) + [LinkCall.Finished]
      ensures f.Fields() == old(f.Fields())
      ensures !old(Expects(f)) ==>
                Snap() == old(Snap()) && f.buffer[..] == old(f.buffer[..])
                && handler.calls == old(handler.calls) && handler.Registers() == old(handler.Registers())
      ensures old(Expects(f)) && f.frameAddress as int != slaveAddress as int ==>
                Snap() == old(Snap()).(timer := now) && f.buffer[..] == old(f.buffer[..])
                && handler.calls == old(handler.calls) && handler.Registers() == old(handler.Registers())
      ensures old(Expects(f)) && f.frameAddress as int == slaveAddress as int ==>
                var call := ReplyCall(old(f.buffer[..]), readStartingAddress, writeStartingAddress, writeN);
                && f.buffer[..] == BufferAfterReply(old(f.buffer[..]))
                && handler.calls == old(handler.calls) + (if call.Some? then [call.value] else [])
                && handler.Registers() == (if call.Some? then handler.Effect(call.value, old(handler.Registers()))
                                          else old(handler.Registers()))
                && Snap() == old(Snap()).(state := Settled(handler, old(f.buffer[0]), call))
    {
      if f.bufferLen == 0 || state != WaitingForReply {
        f.Finished();
        return;
      }
      if f.frameAddress as int != slaveAddress as int {
        timer := now;
        f.Finished();
        return;
      }
      state := ProcessingReply;
      var ret := DispatchReply(f);
      state := if ret then Idle else ProcessingError;
      f.Finished();
    }

    /** The switch of frame_ready on the function code. */
    method DispatchReply(f: Framer) returns (ret: bool)
      requires Valid() && f.buffer.Length >= MODBUS_DATA_BUFFER_SIZE
      modifies f.buffer, handler, handler.Store()
      ensures var call := ReplyCall(old(f.buffer[..]), readStartingAddress, writeStartingAddress, writeN);
              && f.buffer[..] == BufferAfterReply(old(f.buffer[..]))
              && handler.calls == old(handler.calls) + (if call.Some? then [call.value] else [])
              && handler.Registers() == (if call.Some? then handler.Effect(call.value, old(handler.Registers()))
                                        else old(handler.Registers()))
              && ret == (Settled(handler, old(f.buffer[0]), call) == Idle)
    {
      var func := f.buffer[0];
      if func == READ_COIL_STATUS {
        ret := handler.Handle(ReadCoilsRsp);
      } else if func == READ_DISCRETE_INPUT_STATUS {
        var ignored := handler.Handle(ReadDiscreteInputsRsp);
        ret := false;
      } else if IsRegisterRead(func) {
        ret := ReadRegistersRsp(f, func);
      } else if func == WRITE_SINGLE_COIL {
        ret := handler.Handle(WriteSingleCoilRsp);
      } else if func == WRITE_SINGLE_REGISTER {
        ret := WriteRegistersRsp(f, true);
      } else if func == WRITE_MULTIPLE_COILS {
        ret := handler.Handle(WriteMultipleCoilsRsp);
      } else if func == WRITE_MULTIPLE_REGISTERS {
        ret := WriteRegistersRsp(f, false);
      } else if func >= 0x80 {
        var ignored := handler.Handle(ExceptionResponse(f.buffer[1]));
        ret := false;
      } else {
        ret := false;
      }
    }

    /** read_registers_rsp: checks the byte count, converts the words in place and reports them. */
    method ReadRegistersRsp(f: Framer, func: u8) returns (ret: bool)
      requires Valid() && f.buffer.Length >= MODBUS_DATA_BUFFER_SIZE && IsRegisterRead(func)
      modifies f.buffer, handler, handler.Store()
      ensures var decoded := DecodeReadResponse(old(f.buffer[..]));
              && (decoded.None? ==>
                    !ret && f.buffer[..] == old(f.buffer[..])
                    && handler.calls == old(handler.calls) && handler.Registers() == old(handler.Registers()))
              && (decoded.Some? ==>
                    var call := ReadReplyCall(func, decoded.value, readStartingAddress, writeStartingAddress, writeN);
                    && f.buffer[..] == SwapPairs(old(f.buffer[..]), 2, |decoded.value|)
                    && handler.calls == old(handler.calls) + [call]
                    && handler.Registers() == handler.Effect(call, old(handler.Registers()))
                    && ret == handler.Answer(call))
    {
      var buffer := f.buffer;
      var count := buffer[1];
      if count < 2 * 1 || count > 2 * 0x7d {
        return false;
      }
      if count % 2 != 0 {
        return false;
      }
      var pairs := count as nat / 2;
      ghost var before := buffer[..];
      SwapToHostOrder(buffer, 2, pairs);
      var values := HostWords(buffer[..], 2, pairs);
      HostReadOfSwappedPairs(before, 2, pairs);
      var call := ReadReplyCall(func, values, readStartingAddress, writeStartingAddress, writeN);
      ret := handler.Handle(call);
    }

    /** write_registers_rsp: decodes the echoed address (and quantity) and reports them. */
    method WriteRegistersRsp(f: Framer, single: bool) returns (ret: bool)
      requires Valid() && f.buffer.Length >= MODBUS_DATA_BUFFER_SIZE
      modifies handler, handler.Store()
      ensures var call := WriteReplyCall(f.buffer[..], single);
              && handler.calls == old(handler.calls) + (if call.Some? then [call.value] else [])
              && handler.Registers() == (if call.Some? then handler.Effect(call.value, old(handler.Registers()))
                                        else old(handler.Registers()))
              && ret == (call.Some? && handler.Answer(call.value))
    {
      var buffer := f.buffer;
      var address := Word(buffer[1], buffer[2]);
      if single {
        ret := handler.Handle(WriteSingleRegisterRsp(address));
      } else {
        var n := Word(buffer[3], buffer[4]) as nat;
        if n < 1 || n > 0x7b {
          return false;
        }
        ret := handler.Handle(WriteMultipleRegistersRsp(address, n));
      }
    }
  }
}
