# Modbus master engine (modbus-potato), modelled in Dafny

This project models the master side of the modbus-potato library: the
`CModbusMaster` engine, the PDU-length tables of `ModbusUtil`, the `IFramer`
base state and the handler interfaces of `ModbusInterface.h`, and the two master
handlers the library ships (`CModbusMasterHandlerBase` and
`CModbusMasterHandlerHolding`).

`CModbusMaster` is a five-state machine: idle, waiting for a reply, processing
a reply, waiting out the broadcast turnaround delay, and processing an error.
It encodes register requests into the framer's buffer and keeps one
transaction context: the slave, the read and write starting addresses, and
the write count. It applies the response timeout and the turnaround delay on
a wrapping tick counter. When a frame arrives, it decodes the reply and
reports it to the application handler.

Modules:

- `ModbusTypes`: fixed-width integers, the 32-bit tick type, and the function-code and exception-code constants.
- `ModbusInterface`:
  - `htons`/`ntohs`;
  - the `IFramer` base as the class `Framer`, with a ghost log of the `begin_send`, `send` and `finished` calls;
  - the `HandlerCall` record of `IMasterHandler` callbacks;
  - the `ISlaveHandler` defaults.
- `ModbusUtil`: `pdu_len`, `pdu_len_req`, `pdu_len_rsp` and their length formulas. `(size_t)-1` is `None`.
- `MasterHandlerHolding`: the holding-register handler, a class over an `array<u16>`.
- `MasterHandlers`: `IMasterHandler` dispatch over the handlers the library ships, plus an application handler with arbitrary answers.
- `MasterPdu`: the byte layouts the engine writes and reads, as functions.
- `ModbusMaster`: the engine as a class. The byte-by-byte writes of each request are gathered in module-level methods (`PutReadRequest`, `PutWriteRequest`, `PutReadWriteRequest`), which the request methods call. These are proved to write exactly the `MasterPdu` layouts, and the request methods to leave the stated state.
- `MasterProperties`: lemmas that relate the pieces:
  - wire byte order;
  - reply round trips;
  - agreement of request lengths with the tables;
  - timer arithmetic;
  - three concrete exchanges: a two-register read, a single-register write and its echo;
  - the decoding of the request headers.

The model follows the code as written. These behaviours are kept and proved,
not corrected:

- Write data goes out low byte first: each value passes through `htons` before it is split most significant byte first. The Write Single Register of `0x00FF` to register 5 is therefore sent as `06 00 05 FF 00`. Section 6.6 of the Modbus Application Protocol V1.1b3 sends register values most significant byte first, i.e. `06 00 05 00 FF`; the model follows the code (`MasterProperties.WriteSingleRegisterRequestBytes`).
- A Read/Write Multiple Registers request sets `buffer_len` to `8 + read_n + 2*write_n` but writes `10 + 2*write_n` bytes. The two agree only when `read_n == 2`.
- A Write Multiple Registers request of one value sets `buffer_len` to 5 but writes 8 bytes.
- The count check rejects only `n > 123`. So `n == 0` passes, and reads are capped at 123 rather than 125.
- The answer of the Read Discrete Inputs callback is ignored: that reply always ends in the error state.
- Register words of a read reply are converted to host order by the engine and converted again by the holding handler. The holding array therefore receives each word with its bytes swapped (`MasterProperties.HoldingStoresReplyBytesSwapped`).

## Model

| member | source | states |
|---|---|---|
| ModbusInterface.Word | ModbusMaster.cpp:229-230 | the 16-bit word assembled from a high and a low byte has exactly those two bytes |
| ModbusInterface.Htons | ModbusInterface.h:16-20 | htons exchanges the two bytes of a 16-bit value |
| ModbusInterface.Ntohs | ModbusInterface.h:22-23 | ntohs exchanges the two bytes of a 16-bit value; it is defined as htons, whose expression it repeats |
| ModbusInterface.SwapInvolution | ModbusInterface.h:16-23 | ntohs undoes htons and vice versa; applying ntohs twice is the identity |
| ModbusInterface.SwapIsUnconditional | ModbusMaster.cpp:167 | ntohs(0x00ff) is 0xff00, so the conversion branch of read_registers_rsp is always taken |
| ModbusInterface.ShiftOrIsSwap | ModbusInterface.h:16-23 | the shift-and-or both helpers evaluate, truncated to 16 bits, is the byte exchange, so htons and ntohs agree |
| ModbusInterface.Framer.constructor | ModbusInterface.h:154-163 | a new framer has buffer_len, station and frame address 0, no handler, and the given buffer and buffer_max |
| ModbusInterface.Framer.SetHandler | ModbusInterface.h:170-173 | set_handler changes the handler and no other field |
| ModbusInterface.Framer.SetStationAddress | ModbusInterface.h:197-200 | the getter returns the address set; no other field changes |
| ModbusInterface.Framer.SetFrameAddress | ModbusInterface.h:296-299 | the getter returns the address set; no other field changes |
| ModbusInterface.Framer.SetBufferLen | ModbusInterface.h:335-338 | the getter returns the length set; no other field changes |
| ModbusInterface.Framer.BeginSend | ModbusInterface.h:239 | begin_send is recorded and returns the concrete framer's answer |
| ModbusInterface.Framer.Send | ModbusInterface.h:253 | send is recorded once |
| ModbusInterface.Framer.Finished | ModbusInterface.h:263 | finished is recorded once |
| ModbusInterface.SlaveDefaultsRejectAll | ModbusInterface.h:395-486 | a slave handler that overrides nothing answers illegal_function to every read and write |
| ModbusInterface.SlaveSingleWritesDelegate | ModbusInterface.h:446-459 | single-coil and single-register writes delegate to the multiple writes with one item (coil as 1 or 0) |
| ModbusUtil.PduLenReqFor | ModbusUtil.cpp:75-93 | requests 0x01-0x06 are 7 bytes; 0x0F/0x10 are 8 + byte count and 0x17 is 12 + byte count, or none for byte count 0; unknown codes have none |
| ModbusUtil.PduLenRspFor | ModbusUtil.cpp:95-113 | replies 0x01-0x04 and 0x17 are 4 + byte count, or none for byte count 0; 0x05, 0x06, 0x0F, 0x10 are 7; unknown codes have none |
| ModbusUtil.ByteCountAt | ModbusUtil.cpp:40 | the byte count is the byte at the code's position when that lies inside buffer_len, else 0 |
| ModbusUtil.PduLenReq | ModbusUtil.cpp:17-43 | an empty buffer has no length; otherwise the request table applied to buffer[0] and the byte at index 5 (0x0F, 0x10) or 9 (0x17) when inside the frame |
| ModbusUtil.PduLenRsp | ModbusUtil.cpp:45-71 | an empty buffer has no length; otherwise the reply table applied to buffer[0] and the byte at index 1 (0x01-0x04, 0x17) when inside the frame |
| ModbusUtil.PduLen | ModbusUtil.cpp:5-13 | a non-zero station address selects the request table, address 0 the reply table |
| ModbusUtil.PduLenReadsOnlyTheFrame | ModbusUtil.cpp:26-40 | both lengths depend only on the first buffer_len bytes |
| ModbusUtil.PduLenBounds | ModbusUtil.cpp:75-113 | every request length lies in [7, 267] and every reply length in [5, 259] |
| ModbusUtil.ExceptionCodesHaveNoLength | ModbusUtil.cpp:92 | codes with bit 0x80 set have no length in either table |
| ModbusUtil.LengthGrowsWithByteCount | ModbusUtil.h:46-91 | variable-length entries strictly increase with the byte count |
| MasterHandlerHolding.HoldingHandler.constructor | ModbusMasterHandlerHolding.cpp:4-8 | the handler keeps the caller's array and its length |
| MasterHandlerHolding.HoldingHandler.Accepts | ModbusMasterHandlerHolding.cpp:13-14 | the bounds check passes iff address < len and address + n <= len, so an address at the end fails even for n = 0 |
| MasterHandlerHolding.Stored | ModbusMasterHandlerHolding.cpp:17-18 | the entries from address on receive the values with their two bytes exchanged; every other entry keeps its value and the length is unchanged |
| MasterHandlerHolding.HoldingHandler.ReadHoldingRegistersRsp | ModbusMasterHandlerHolding.cpp:10-21 | succeeds iff the bounds check passes; then entry address + i receives ntohs(values[i]) for every i < n and all other entries keep their value; on failure nothing changes |
| MasterHandlerHolding.HoldingHandler.WriteMultipleRegistersRsp | ModbusMasterHandlerHolding.cpp:23-30 | returns the bounds check and does not touch the array |
| MasterHandlers.DefaultReadWrite | ModbusInterface.h:601-604 | the inherited combined callback succeeds iff the write callback and then the read callback succeed |
| MasterHandlers.DefaultAnswer | ModbusInterface.h:504-622 | every IMasterHandler default answers true |
| MasterHandlers.BaseAnswer | ModbusMasterHandlerBase.h:12-55 | every CModbusMasterHandlerBase callback answers true, the inherited combined one included |
| MasterHandlers.MasterHandler.Answer | ModbusMasterHandlerHolding.cpp:10-30 | the default and base handlers answer true; the holding handler answers its bounds check for reads and multiple writes, both checks for read/write, and true for every other callback; an application handler answers its own function |
| MasterHandlers.MasterHandler.Effect | ModbusMasterHandlerHolding.cpp:10-21 | only the holding handler, and only on an accepted register read or read/write, stores the values (Stored at the read address); every other callback leaves the registers as they were |
| MasterHandlers.MasterHandler.Handle | ModbusInterface.h:504-622 | a callback is recorded once, returns the handler's answer, and changes the registers only as the handler's effect says |
| MasterHandlers.HoldingReadWriteShortCircuits | ModbusInterface.h:601-604 | when the write half is rejected, the combined callback fails and the read half never touches the registers |
| MasterHandlers.PermissiveHandlers | ModbusMasterHandlerBase.h:9-56 | the default and base handlers answer every callback with true and have no state |
| MasterPdu.CountRejected | ModbusMaster.cpp:295 | the count test rejects exactly counts above 123 |
| MasterPdu.BigEndianPair | ModbusMaster.cpp:216-217 | word i of a big-endian encoding sits at bytes 2i (high) and 2i + 1 (low) |
| MasterPdu.EncodedPair | ModbusMaster.cpp:212-218 | value i of a write request occupies bytes 2i and 2i + 1 as its htons word, high byte first |
| MasterPdu.HostReadOfSwappedPairs | ModbusMaster.cpp:165-171 | reading the swapped pairs low byte first yields the big-endian words of the reply |
| MasterPdu.ReadRequestPdu | ModbusMaster.cpp:132-146 | a read request is five bytes |
| MasterPdu.WriteRequestLen | ModbusMaster.cpp:191-195 | buffer_len is 6 + 2n except for n = 1, where it is 5 |
| MasterPdu.WriteRequestPdu | ModbusMaster.cpp:202-218 | a write request has 3 header bytes (6 for 0x10) and two bytes per value |
| MasterPdu.ReadWriteRequestLen | ModbusMaster.cpp:251-258 | buffer_len exceeds 7 + 2 write_n and equals the 10 + 2 write_n bytes written iff read_n = 2 |
| MasterPdu.ReadWriteRequestPdu | ModbusMaster.cpp:265-282 | a read/write request has 10 header bytes and two bytes per value |
| MasterPdu.DecodeReadResponse | ModbusMaster.cpp:155-164 | a read reply is accepted iff its byte count is even and in [2, 250]; the values are then count/2 words, word i taken from bytes 2 + 2i (high) and 3 + 2i (low) |
| MasterPdu.WriteReplyCall | ModbusMaster.cpp:225-245 | a single write reports the big-endian echoed address; a multiple write also reports the quantity and is rejected unless it lies in [1, 123] |
| MasterPdu.ReadReplyCall | ModbusMaster.cpp:173-186 | 0x03 and 0x04 report the values at the stored read address with the matching callback; 0x17 reports them with the stored write address and count |
| MasterPdu.ReplyCall | ModbusMaster.cpp:86-122 | 0x01, 0x02, 0x05 and 0x0F report their payload-free callbacks; 0x06 reports the big-endian echoed address; 0x10 reports address and quantity iff the quantity lies in [1, 123]; register reads report the decoded values with the stored context, or nothing when decoding fails; an exception reply reports buffer[1]; other codes report nothing |
| MasterPdu.Decisive | ModbusMaster.cpp:91-124 | only a known code other than 0x02, so never an exception reply, lets the handler's answer decide the outcome |
| MasterPdu.BufferAfterReply | ModbusMaster.cpp:165-171 | an accepted register read leaves the code and count bytes and holds words that, read low byte first, are the decoded values; any other reply leaves the buffer unchanged |
| ModbusMaster.TimeoutTicks | ModbusMaster.cpp:16-19 | the timeout in ticks is the quotient of (ms * 1000 mod 2^w) by the microseconds per tick, w being the width of unsigned int (16 or 32) |
| ModbusMaster.Elapsed | ModbusMaster.cpp:30 | elapsed ticks are the difference modulo 2^32, so the timer plus the elapsed ticks is now |
| ModbusMaster.PollNext | ModbusMaster.cpp:22-45 | waiting for a reply times out only after more than the response timeout, to idle or error as response_time_out answers; the turnaround wait ends once elapsed >= the delay; the other states never change |
| ModbusMaster.Settled | ModbusMaster.cpp:124 | the engine ends idle iff a reply was reported, its code is known and not 0x02, and the handler answered true; otherwise it ends in error |
| ModbusMaster.AfterSend | ModbusMaster.cpp:313-316 | after sending, the engine waits for a reply, or for the turnaround delay exactly when the slave is 0 |
| ModbusMaster.PutWord | ModbusMaster.cpp:216-217 | a word is stored high byte first at the position given; nothing else changes |
| ModbusMaster.PutReadRequest | ModbusMaster.cpp:141-146 | the buffer starts with ReadRequestPdu and is otherwise unchanged |
| ModbusMaster.PutWriteRequest | ModbusMaster.cpp:202-218 | the buffer starts with WriteRequestPdu, count fields only for 0x10, and is otherwise unchanged |
| ModbusMaster.PutReadWriteRequest | ModbusMaster.cpp:265-282 | the buffer starts with ReadWriteRequestPdu and is otherwise unchanged |
| ModbusMaster.EncodeValuesInto | ModbusMaster.cpp:212-218 | the data bytes written are EncodeValues(data) from the start position on; nothing else changes |
| ModbusMaster.SwapToHostOrder | ModbusMaster.cpp:165-171 | the in-place conversion exchanges the two bytes of each of the count pairs and nothing else |
| ModbusMaster.ModbusMaster.constructor | ModbusMaster.cpp:5-20 | defaults of 200 ms and 1000 ms are converted to ticks once, at the target's unsigned int width; the engine starts idle with a zero context |
| ModbusMaster.ModbusMaster.Poll | ModbusMaster.cpp:22-45 | the state becomes PollNext of the elapsed ticks; response_time_out is called exactly when a waiting engine has timed out; nothing else changes |
| ModbusMaster.ModbusMaster.Admits | ModbusMaster.cpp:291-297 | the checks before begin_send pass only for an idle engine, a count of at most 123 and a length within buffer_max |
| ModbusMaster.ModbusMaster.SanityCheck | ModbusMaster.cpp:291-303 | succeeds iff the engine is idle, the count is at most 123, the length fits buffer_max and begin_send agrees; begin_send is called only when the first three hold |
| ModbusMaster.ModbusMaster.SendAndWait | ModbusMaster.cpp:305-317 | buffer_len is set, send is called once, the timer and slave are recorded, and the state is the turnaround wait iff the slave is 0 |
| ModbusMaster.ModbusMaster.ReadRegistersReq | ModbusMaster.cpp:130-151 | on failure nothing but the begin_send record changes; on success the buffer starts with the five request bytes, buffer_len is 5, the frame address is the slave, and the read address is stored |
| ModbusMaster.ModbusMaster.WriteRegistersReq | ModbusMaster.cpp:189-223 | on success the buffer starts with the write request bytes (data low byte first), buffer_len is 3 + (n != 1 ? 3 : 0) + 2n, and the write address is stored while the write count is kept |
| ModbusMaster.ModbusMaster.ReadWriteRegistersReq | ModbusMaster.cpp:247-289 | only the read count is checked; on success the buffer starts with the 10 header bytes and the data, buffer_len is 8 + read_n + 2 write_n, and both addresses and the write count (mod 2^16) are stored |
| ModbusMaster.ModbusMaster.ReadCoilsReq | ModbusMaster.cpp:47-50 | always fails |
| ModbusMaster.ModbusMaster.ReadDiscreteInputsReq | ModbusMaster.cpp:52-55 | always fails |
| ModbusMaster.ModbusMaster.WriteSingleCoilReq | ModbusMaster.cpp:57-60 | always fails |
| ModbusMaster.ModbusMaster.WriteMultipleCoilsReq | ModbusMaster.cpp:62-65 | always fails |
| ModbusMaster.ModbusMaster.ReadHoldingRegistersReq | ModbusMaster.h:16-19 | the outcome of a register read request with function 0x03 |
| ModbusMaster.ModbusMaster.ReadInputRegistersReq | ModbusMaster.h:20-23 | the outcome of a register read request with function 0x04 |
| ModbusMaster.ModbusMaster.WriteSingleRegisterReq | ModbusMaster.h:26-30 | the outcome of a write request with function 0x06 and the single value, so n = 1 |
| ModbusMaster.ModbusMaster.WriteMultipleRegistersReq | ModbusMaster.h:32-43 | the outcome of a write request with function 0x10 and exactly the given values |
| ModbusMaster.ModbusMaster.WriteMultipleRegistersArrayReq | ModbusMaster.h:36-39 | the outcome of a write request with function 0x10 and the first n array entries |
| ModbusMaster.ModbusMaster.ReadWriteMultipleRegistersReq | ModbusMaster.h:48-51 | the outcome of a 0x17 request with the read count narrowed to 16 bits and the addresses and data passed through |
| ModbusMaster.ModbusMaster.ReadWriteSameRegistersReq | ModbusMaster.h:44-47 | the outcome of a 0x17 request with one address for both halves and the data length as read count |
| ModbusMaster.ModbusMaster.ReadWriteSameRegistersArrayReq | ModbusMaster.h:52-55 | the same as above over the first n array entries, n also the read count |
| ModbusMaster.ModbusMaster.ReadWriteMultipleRegistersArrayReq | ModbusMaster.h:56-59 | the outcome of a 0x17 request over the first write_n array entries with the read arguments passed through |
| ModbusMaster.ModbusMaster.FrameReady | ModbusMaster.cpp:67-128 | finished is called exactly once; an empty frame or an engine not waiting changes nothing else; a frame from another slave only resets the timer; otherwise the reply is reported as ReplyCall says and the engine settles idle or in error as Settled says |
| ModbusMaster.ModbusMaster.DispatchReply | ModbusMaster.cpp:84-122 | the switch on the function code reports ReplyCall's callback, if any, and succeeds as Settled says |
| ModbusMaster.ModbusMaster.ReadRegistersRsp | ModbusMaster.cpp:153-187 | a rejected byte count changes nothing and fails; otherwise the pairs are swapped in place and the handler receives the big-endian values with the stored context |
| ModbusMaster.ModbusMaster.WriteRegistersRsp | ModbusMaster.cpp:225-245 | the handler receives WriteReplyCall's callback, if any, and its answer is the result |
| MasterProperties.EncodeValuesLowByteFirst | ModbusMaster.cpp:212-218 | every written value goes out low byte first |
| MasterProperties.SlaveDecodesSwappedValues | ModbusMaster.cpp:212-218 | a slave decoding the data big-endian receives each value byte-swapped |
| MasterProperties.ReadResponseDecodes | ModbusMaster.cpp:155-176 | a reply laid out as in section 6.3 of the Modbus Application Protocol V1.1b3 decodes to exactly its values |
| MasterProperties.DecodedReadResponseIsWellFormed | ModbusMaster.cpp:155-176 | whatever the decoder accepts is such a reply of the values it returns |
| MasterProperties.WriteMultipleReplyDecodes | ModbusMaster.cpp:225-245 | a Write Multiple Registers echo with quantity in [1, 123] reports exactly that address and quantity |
| MasterProperties.ReadRequestMatchesTable | ModbusMaster.cpp:132-146 | a read request's buffer_len equals its bytes, and the request table adds the CRC |
| MasterProperties.WriteSingleRequestMatchesTable | ModbusMaster.cpp:191-218 | a single register write's buffer_len equals its bytes, and the request table adds the CRC |
| MasterProperties.WriteMultipleRequestMatchesTable | ModbusMaster.cpp:191-218 | for 2 to 123 values, buffer_len equals the bytes written, and the request table adds the CRC |
| MasterProperties.WriteMultipleOfOneValueLength | ModbusMaster.cpp:194-211 | a 0x10 request of one value gets buffer_len 5 while 8 bytes are written and the table expects 10 |
| MasterProperties.WriteMultipleOfNoValues | ModbusMaster.cpp:191-211 | a 0x10 request of no values passes the count check, but its zero byte count has no table entry |
| MasterProperties.ReadWriteLengthMatchesOnlyForTwo | ModbusMaster.cpp:252-282 | the buffer_len of a 0x17 request equals the bytes written iff read_n = 2 |
| MasterProperties.ReadWriteOfTwoMatchesTable | ModbusMaster.cpp:252-282 | with read_n = 2 and 1 to 121 values, the request table agrees with the bytes written |
| MasterProperties.CountLimit | ModbusMaster.cpp:295 | counts 0, 1 and 123 pass; 124 and 125 are rejected |
| MasterProperties.WordOfCount | ModbusMaster.cpp:208-209 | the two count bytes of a 0x10 request give back n modulo 2^16 |
| MasterProperties.ReadRequestHeaderDecodes | ModbusMaster.cpp:142-146 | a slave reading a read request big-endian finds the function, address and quantity sent |
| MasterProperties.WriteRequestHeaderDecodes | ModbusMaster.cpp:203-210 | a slave reading a write request finds the function and address sent and, for 0x10, n modulo 2^16 and the byte count 2n modulo 256 |
| MasterProperties.ReadWriteRequestHeaderDecodes | ModbusMaster.cpp:267-275 | a slave reading a 0x17 request finds both addresses and counts sent and the byte count 2 write_n modulo 256 |
| MasterProperties.ElapsedAcrossWrap | ModbusMaster.cpp:30-39 | the elapsed time is right across a wrap of the tick counter |
| MasterProperties.TimeoutProductWraps | ModbusMaster.cpp:16-19 | at 1 us per tick, 4294968 ms wraps to 704 ticks with a 32-bit unsigned int, and 66 ms to 464 ticks with a 16-bit one |
| MasterProperties.DefaultTimeoutsByWidth | ModbusMaster.cpp:16-19 | at 1000 us per tick the defaults give 200 and 1000 ticks with a 32-bit unsigned int but 3 and 16 ticks with a 16-bit one |
| MasterProperties.PollTimesOutOnlyAfterDeadline | ModbusMaster.cpp:29-41 | a waiting engine leaves the wait iff elapsed > timeout; the turnaround wait ends iff elapsed >= delay |
| MasterProperties.ExceptionReplyFails | ModbusMaster.cpp:115-124 | an exception reply reports its code and always ends in error |
| MasterProperties.DiscreteInputsReplyFails | ModbusMaster.cpp:91-93 | a 0x02 reply ends in error whatever the handler answers |
| MasterProperties.BaseHandlerRecovers | ModbusMasterHandlerBase.h:12-55 | with the base handler, every reported reply of a decisive code ends idle, and a timeout returns to idle |
| MasterProperties.HoldingStoresReplyBytesSwapped | ModbusMasterHandlerHolding.cpp:17-18 | the holding array receives each reply word read low byte first |
| MasterProperties.ReadHoldingExchange | ModbusMaster.cpp:130-187 | reading 2 registers at 0 sends 03 00 00 00 02; the reply 03 04 12 34 56 78 reports [0x1234, 0x5678] |
| MasterProperties.WriteSingleRequestBytes | ModbusMaster.cpp:202-218 | a Write Single Register request is the code, the address high byte first, and the value low byte first |
| MasterProperties.WriteSingleRegisterRequestBytes | ModbusMaster.h:26-30 | writing 0x00FF to register 5 sends 06 00 05 FF 00 |
| MasterProperties.WriteSingleRegisterReplyCall | ModbusMaster.cpp:225-234 | the echo 06 00 05 00 FF reports address 5 |

## Left out

- The RTU and ASCII framers are not part of this model: their `poll`, `begin_send`, `send` and `finished`, the CRC-16 and LRC checks, and the T1.5/T3.5 timing. Only their declarations exist. `begin_send`'s answer is a parameter, and the three calls are recorded in a log.
- `ModbusSlave.h` (declaration only) and `src/SlaveHandlerBase.h` (a stale API) are not part of this model.
- `IStream` and `ITimeProvider`: the stream is not modelled. The current tick count is a parameter `now`, and `microseconds_per_tick` is a constructor parameter required to be positive.
- `system_tick_t` is one 32-bit unsigned type on every platform. The width of `unsigned int`, which is 16 bits on AVR Arduino targets, is a constructor parameter instead.
- The master does not check that the reply's function code matches the request; the model does not add such a check.
- ModbusMaster.ModbusMaster.WriteRegistersReq: requires that the buffer array can hold the bytes written whenever the checks pass. The source writes 8 bytes for a one-value 0x10 request after checking only 5 against `buffer_max`, and can write past the buffer.
- ModbusMaster.PutWriteRequest: requires the same room in the buffer array.
- ModbusMaster.ModbusMaster.ReadWriteRegistersReq: requires the same of a 0x17 request with `read_n < 2`, whose 10 + 2 write_n bytes exceed the `buffer_len` checked.
- ModbusMaster.PutReadWriteRequest: requires the same room in the buffer array.
- ModbusMaster.ModbusMaster.WriteMultipleRegistersReq: inherits the buffer-room requires of WriteRegistersReq, since the source can write past the buffer for a one-value request.
- ModbusMaster.ModbusMaster.WriteMultipleRegistersArrayReq: inherits the same buffer-room requires of WriteRegistersReq.
- ModbusMaster.ModbusMaster.ReadWriteMultipleRegistersReq: inherits the buffer-room requires of ReadWriteRegistersReq, since the source can write past the length checked when read_n < 2.
- ModbusMaster.ModbusMaster.ReadWriteSameRegistersReq: inherits the same buffer-room requires of ReadWriteRegistersReq.
- ModbusMaster.ModbusMaster.ReadWriteSameRegistersArrayReq: inherits the same buffer-room requires of ReadWriteRegistersReq.
- ModbusMaster.ModbusMaster.ReadWriteMultipleRegistersArrayReq: inherits the same buffer-room requires of ReadWriteRegistersReq.
- ModbusMaster.ModbusMaster.FrameReady: requires a buffer of at least `MODBUS_DATA_BUFFER_SIZE` bytes, because the decoders read `buffer[1..]` beyond `buffer_len`.
- ModbusMaster.ModbusMaster.DispatchReply: inherits FrameReady's requirement of a buffer of at least `MODBUS_DATA_BUFFER_SIZE` bytes, because the reply decoders read up to 252 bytes whatever `buffer_len` is.
- ModbusMaster.ModbusMaster.ReadRegistersRsp: inherits the same requirement, because the source reads the byte count and words past `buffer_len`.
- ModbusMaster.ModbusMaster.WriteRegistersRsp: inherits the same requirement, because the source reads the echoed address and quantity past `buffer_len`.
- Host byte order: the reinterpretation of reply bytes as `uint16_t` is modelled as its effect on a little-endian host.
- `size_t` overflow of the computed lengths is not modelled. Lengths are unbounded naturals; the counts of `size_t` arguments narrowed to `uint16_t` are reduced mod 2^16 explicitly.
- MasterHandlerHolding.HoldingHandler.ReadHoldingRegistersRsp: writes entry address + i without the 16-bit wrap of the source's address counter. The wrap can occur only when `len` exceeds 65536.
- The `IFramer*` argument passed to the coil callbacks is not recorded in `HandlerCall`.
- Handler dispatch covers the library's handlers plus an application handler whose answers are a function of the call and which changes nothing else. An application override with other side effects is not modelled.
- The `int` byte-count parameters of the inline length formulas are natural numbers. Byte counts come from one byte, so the `int` conversion never truncates.
