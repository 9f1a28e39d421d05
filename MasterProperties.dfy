/**
 * Properties that relate several parts of the master engine: what a slave
 * sees on the wire, how replies round-trip through the decoders, how the
 * lengths the engine sets compare with the PDU-length tables, the timing
 * arithmetic, and three concrete exchanges: a two-register read, a
 * single-register write and its echo.
 */
module MasterProperties {
  import opened ModbusTypes
  import opened ModbusInterface
  import opened ModbusUtil
  import opened MasterHandlerHolding
  import opened MasterHandlers
  import opened MasterPdu
  import opened ModbusMaster

  // ------------------------------------------------------------- byte order

  /** Because htons runs before the split, every written value goes out low byte first. */
  lemma EncodeValuesLowByteFirst(data: seq<u16>, i: nat)
    requires i < |data|
    ensures EncodeValues(data)[2 * i] == LowByte(data[i] as nat)
    ensures EncodeValues(data)[2 * i + 1] == HighByte(data[i] as nat)
  {
    EncodedPair(data, i);
  }

  /**
   * A slave that decodes the data of a write request as the protocol says,
   * most significant byte first, receives every value with its bytes swapped.
   */
  lemma {:induction false} SlaveDecodesSwappedValues(data: seq<u16>)
    ensures BigEndianWords(EncodeValues(data), 0, |data|) == SwappedWords(data)
  {
    var bytes := EncodeValues(data);
    var swapped := SwappedWords(data);
    var words := BigEndianWords(bytes, 0, |data|);
    forall i | 0 <= i < |data|
      ensures words[i] == swapped[i]
    {
      assert words[i] == Word(bytes[2 * i], bytes[2 * i + 1]);
      EncodedPair(data, i);
      assert swapped[i] == Htons(data[i]);
      WordOfBytes(Htons(data[i]));
    }
    assert words == swapped;
  }

  // -------------------------------------------------------- reply round trips

  /** Word i of a well-formed read reply is the value it was encoded from. */
  lemma ReadResponseWord(func: u8, values: seq<u16>, buffer: seq<u8>, i: nat)
    requires i < |values| <= 0x7d
    requires 2 + 2 * |values| <= |buffer|
    requires buffer[..2 + 2 * |values|] == ReadResponsePdu(func, values)
    ensures Word(buffer[2 + 2 * i], buffer[3 + 2 * i]) == values[i]
  {
    var pdu := ReadResponsePdu(func, values);
    BigEndianPair(values, i);
    assert buffer[2 + 2 * i] == pdu[2 + 2 * i] == HighByte(values[i] as nat);
    assert buffer[3 + 2 * i] == pdu[3 + 2 * i] == LowByte(values[i] as nat);
    WordOfBytes(values[i]);
  }

  /** A well-formed register read reply decodes to exactly the values it carries. */
  lemma {:induction false} ReadResponseDecodes(func: u8, values: seq<u16>, buffer: seq<u8>)
    requires 1 <= |values| <= 0x7d
    requires |buffer| >= REPLY_BYTES_READ
    requires buffer[..2 + 2 * |values|] == ReadResponsePdu(func, values)
    ensures DecodeReadResponse(buffer) == Some(values)
  {
    assert buffer[1] as nat == 2 * |values| by {
      assert buffer[1] == ReadResponsePdu(func, values)[1];
    }
    var decoded := BigEndianWords(buffer, 2, |values|);
    forall i | 0 <= i < |values|
      ensures decoded[i] == values[i]
    {
      ReadResponseWord(func, values, buffer, i);
    }
    assert decoded == values;
  }

  /** Conversely, whatever the read decoder accepts is a well-formed reply of the values it returns. */
  lemma {:induction false} DecodedReadResponseIsWellFormed(buffer: seq<u8>)
    requires |buffer| >= REPLY_BYTES_READ
    requires DecodeReadResponse(buffer).Some?
    ensures var values := DecodeReadResponse(buffer).value;
            |values| <= 0x7d && buffer[..2 + 2 * |values|] == ReadResponsePdu(buffer[0], values)
  {
    var values := DecodeReadResponse(buffer).value;
    var pdu := ReadResponsePdu(buffer[0], values);
    forall k | 0 <= k < 2 + 2 * |values|
      ensures buffer[k] == pdu[k]
    {
      if k >= 2 {
        var i := (k - 2) / 2;
        assert k == 2 + 2 * i || k == 3 + 2 * i;
        BigEndianPair(values, i);
      }
    }
  }

  /**
   * A Write Multiple Registers reply echoing an address and a quantity in
   * [1, 0x7b] reaches the handler with exactly that address and quantity.
   */
  lemma WriteMultipleReplyDecodes(address: u16, n: u16, buffer: seq<u8>, ra: u16, wa: u16, wn: u16)
    requires 1 <= n as nat <= MAX_REQUEST_COUNT
    requires |buffer| >= REPLY_BYTES_READ && buffer[..5] == WriteMultipleResponsePdu(address, n)
    ensures ReplyCall(buffer, ra, wa, wn) == Some(WriteMultipleRegistersRsp(address, n as nat))
  {
    assert buffer[0] == WRITE_MULTIPLE_REGISTERS;
    assert buffer[1] == HighByte(address as nat) && buffer[2] == LowByte(address as nat);
    assert buffer[3] == HighByte(n as nat) && buffer[4] == LowByte(n as nat);
    WordOfBytes(address);
    WordOfBytes(n);
  }

  // ------------------------------------------- request lengths and the tables

  /** Register read requests: five bytes, which the request table extends by the CRC. */
  lemma ReadRequestMatchesTable(func: u8, address: u16, n: u16)
    requires func == READ_HOLDING_REGISTERS || func == READ_INPUT_REGISTERS
    ensures var pdu := ReadRequestPdu(func, address, n);
            |pdu| == READ_REQUEST_LEN && PduLenReq(pdu, |pdu|) == Some(|pdu| + PDU_LEN_CRC)
  {
  }

  /** Write Single Register: the length set, the bytes written and the table agree. */
  lemma WriteSingleRequestMatchesTable(address: u16, value: u16)
    ensures var pdu := WriteRequestPdu(WRITE_SINGLE_REGISTER, address, [value]);
            |pdu| == WriteRequestLen(1) == 5 && PduLenReq(pdu, |pdu|) == Some(|pdu| + PDU_LEN_CRC)
  {
  }

  /** Write Multiple Registers of two or more values: the length set, the bytes written and the table agree. */
  lemma WriteMultipleRequestMatchesTable(address: u16, data: seq<u16>)
    requires 2 <= |data| <= MAX_REQUEST_COUNT
    ensures var pdu := WriteRequestPdu(WRITE_MULTIPLE_REGISTERS, address, data);
            |pdu| == WriteRequestLen(|data|) && PduLenReq(pdu, |pdu|) == Some(|pdu| + PDU_LEN_CRC)
  {
    var pdu := WriteRequestPdu(WRITE_MULTIPLE_REGISTERS, address, data);
    assert pdu[0] == WRITE_MULTIPLE_REGISTERS && pdu[5] == LowByte(2 * |data|);
  }

  /**
   * Write Multiple Registers of one value: buffer_len is set to 5 although
   * 8 bytes are written, and the request table expects 8 plus the CRC.
   */
  lemma WriteMultipleOfOneValueLength(address: u16, value: u16)
    ensures var pdu := WriteRequestPdu(WRITE_MULTIPLE_REGISTERS, address, [value]);
            WriteRequestLen(1) == 5 && |pdu| == 8 && PduLenReq(pdu, |pdu|) == Some(10)
  {
    var pdu := WriteRequestPdu(WRITE_MULTIPLE_REGISTERS, address, [value]);
    assert pdu[0] == WRITE_MULTIPLE_REGISTERS && pdu[5] == 2;
  }

  /**
   * Write Multiple Registers of no values passes the count check and is
   * sent, but its byte count is 0, which the request table rejects.
   */
  lemma WriteMultipleOfNoValues(address: u16)
    ensures !CountRejected(0)
    ensures var pdu := WriteRequestPdu(WRITE_MULTIPLE_REGISTERS, address, []);
            WriteRequestLen(0) == |pdu| == 6 && PduLenReq(pdu, |pdu|) == None
  {
    var pdu := WriteRequestPdu(WRITE_MULTIPLE_REGISTERS, address, []);
    assert pdu[0] == WRITE_MULTIPLE_REGISTERS && pdu[5] == 0;
  }

  /**
   * read_write_registers_req counts the read quantity as that many bytes:
   * the length it sets equals the bytes it writes exactly when it reads two
   * registers.
   */
  lemma ReadWriteLengthMatchesOnlyForTwo(ra: u16, rn: u16, wa: u16, data: seq<u16>)
    ensures (ReadWriteRequestLen(rn as nat, |data|)
               == |ReadWriteRequestPdu(READ_WRITE_MULTIPLE_REGISTERS, ra, rn, wa, data)|) <==> rn == 2
  {
  }

  /** With two registers read and 1..121 written, the table agrees with the bytes written. */
  lemma ReadWriteOfTwoMatchesTable(ra: u16, wa: u16, data: seq<u16>)
    requires 1 <= |data| <= 0x79
    ensures var pdu := ReadWriteRequestPdu(READ_WRITE_MULTIPLE_REGISTERS, ra, 2, wa, data);
            PduLenReq(pdu, |pdu|) == Some(|pdu| + PDU_LEN_CRC)
  {
    var pdu := ReadWriteRequestPdu(READ_WRITE_MULTIPLE_REGISTERS, ra, 2, wa, data);
    assert pdu[0] == READ_WRITE_MULTIPLE_REGISTERS && pdu[9] == LowByte(2 * |data|);
    assert LowByte(2 * |data|) as nat == 2 * |data|;
    assert |pdu| == 10 + 2 * |data|;
  }

  /** The count check caps every request at 123 registers, 0 included, reads too. */
  lemma CountLimit()
    ensures !CountRejected(0) && !CountRejected(1) && !CountRejected(MAX_REQUEST_COUNT)
    ensures CountRejected(124) && CountRejected(125)
  {
  }

  // ------------------------------------------- request headers, as decoded

  /** The two bytes a count is written as give back the count modulo 2^16. */
  lemma WordOfCount(n: nat)
    ensures Word(HighByte(n), LowByte(n)) as nat == n % 0x1_0000
  {
    var q := n / 0x100;
    assert n == q * 0x100 + n % 0x100;
    assert q == (q / 0x100) * 0x100 + q % 0x100;
    assert n == (q / 0x100) * 0x1_0000 + (q % 0x100) * 0x100 + n % 0x100;
    assert 0 <= (q % 0x100) * 0x100 + n % 0x100 < 0x1_0000;
  }

  /** A slave reading a register read request big-endian finds the function, address and quantity sent. */
  lemma ReadRequestHeaderDecodes(func: u8, address: u16, n: u16)
    ensures var pdu := ReadRequestPdu(func, address, n);
            pdu[0] == func && Word(pdu[1], pdu[2]) == address && Word(pdu[3], pdu[4]) == n
  {
    WordOfBytes(address);
    WordOfBytes(n);
  }

  /**
   * A slave reading a write request finds the function and address sent and,
   * for function 0x10, the count and the byte count, both truncated as the
   * code truncates them.
   */
  lemma WriteRequestHeaderDecodes(func: u8, address: u16, data: seq<u16>)
    ensures var pdu := WriteRequestPdu(func, address, data);
            pdu[0] == func && Word(pdu[1], pdu[2]) == address
            && (func == WRITE_MULTIPLE_REGISTERS ==>
                  Word(pdu[3], pdu[4]) as nat == |data| % 0x1_0000 && pdu[5] as nat == (2 * |data|) % 0x100)
  {
    WordOfBytes(address);
    WordOfCount(|data|);
  }

  /**
   * A slave reading a read/write request finds both addresses and counts
   * sent and the byte count 2n modulo 256.
   */
  lemma ReadWriteRequestHeaderDecodes(func: u8, readAddress: u16, readN: u16, writeAddress: u16, data: seq<u16>)
    ensures var pdu := ReadWriteRequestPdu(func, readAddress, readN, writeAddress, data);
            pdu[0] == func && Word(pdu[1], pdu[2]) == readAddress && Word(pdu[3], pdu[4]) == readN
            && Word(pdu[5], pdu[6]) == writeAddress
            && Word(pdu[7], pdu[8]) as nat == |data| % 0x1_0000 && pdu[9] as nat == (2 * |data|) % 0x100
  {
    WordOfBytes(readAddress);
    WordOfBytes(readN);
    WordOfBytes(writeAddress);
    WordOfCount(|data|);
  }

  // ------------------------------------------------------------------ timing

  /** Elapsed time survives the tick counter wrapping past zero. */
  lemma ElapsedAcrossWrap(since: Tick, d: nat)
    requires d < TICK_MODULUS
    ensures Elapsed(((since as int + d) % TICK_MODULUS) as Tick, since) == d as Tick
  {
    var now := (since as int + d) % TICK_MODULUS;
    if since as int + d < TICK_MODULUS {
      assert now - since as int == d;
    } else {
      assert now - since as int == d - TICK_MODULUS;
    }
  }

  /** A timeout over 4294967 ms wraps in the unsigned product: 4294968 ms at 1 us per tick is 704 ticks. */
  lemma TimeoutProductWraps()
    ensures TimeoutTicks(UInt32, 4294968, 1) == 704
    ensures TimeoutTicks(UInt16, 66, 1) == 464
  {
  }

  /**
   * At 1000 us per tick the default timeouts of 200 ms and 1000 ms are 200
   * and 1000 ticks with a 32-bit unsigned int, but only 3 and 16 ticks with
   * a 16-bit one, whose products 200000 and 1000000 wrap.
   */
  lemma DefaultTimeoutsByWidth()
    ensures TimeoutTicks(UInt32, DEFAULT_RESPONSE_TIME_OUT_MS, 1000) == 200
    ensures TimeoutTicks(UInt32, DEFAULT_TURNAROUND_DELAY_MS, 1000) == 1000
    ensures TimeoutTicks(UInt16, DEFAULT_RESPONSE_TIME_OUT_MS, 1000) == 3
    ensures TimeoutTicks(UInt16, DEFAULT_TURNAROUND_DELAY_MS, 1000) == 16
  {
  }

  /** A waiting master gives up only once more than the response timeout has elapsed. */
  lemma PollTimesOutOnlyAfterDeadline(elapsed: Tick, rto: Tick, delay: Tick, answer: bool)
    ensures PollNext(WaitingForReply, elapsed, rto, delay, answer) != WaitingForReply <==> elapsed > rto
    ensures PollNext(WaitingTurnaroundReply, elapsed, rto, delay, answer) == Idle <==> elapsed >= delay
  {
  }

  // ------------------------------------------------------------ reply outcomes

  /** An exception reply reaches exception_response with its code and always ends in processing_error. */
  lemma ExceptionReplyFails(h: MasterHandler, buffer: seq<u8>, ra: u16, wa: u16, wn: u16)
    requires |buffer| >= REPLY_BYTES_READ && buffer[0] >= 0x80
    ensures ReplyCall(buffer, ra, wa, wn) == Some(ExceptionResponse(buffer[1]))
    ensures Settled(h, buffer[0], ReplyCall(buffer, ra, wa, wn)) == ProcessingError
  {
  }

  /** A Read Discrete Inputs reply ends in processing_error whatever the handler answers. */
  lemma DiscreteInputsReplyFails(h: MasterHandler, buffer: seq<u8>, ra: u16, wa: u16, wn: u16)
    requires |buffer| >= REPLY_BYTES_READ && buffer[0] == READ_DISCRETE_INPUT_STATUS
    ensures ReplyCall(buffer, ra, wa, wn) == Some(ReadDiscreteInputsRsp)
    ensures Settled(h, buffer[0], ReplyCall(buffer, ra, wa, wn)) == ProcessingError
  {
  }

  /**
   * With CModbusMasterHandlerBase every accepted reply of a known function
   * other than 0x02 returns the master to idle, and so does a response
   * timeout.
   */
  lemma BaseHandlerRecovers(h: MasterHandler, buffer: seq<u8>, ra: u16, wa: u16, wn: u16,
                            elapsed: Tick, rto: Tick, delay: Tick)
    requires h.kind == AlwaysTrue
    requires |buffer| >= REPLY_BYTES_READ && Decisive(buffer[0])
    ensures ReplyCall(buffer, ra, wa, wn).Some? ==> Settled(h, buffer[0], ReplyCall(buffer, ra, wa, wn)) == Idle
    ensures elapsed > rto ==> PollNext(WaitingForReply, elapsed, rto, delay, h.Answer(ResponseTimeOut)) == Idle
  {
  }

  /**
   * Register words from a read reply pass through ntohs twice on their way
   * into a holding handler's array (once in the engine, once in the
   * handler), so register address + i holds the reply's bytes read low
   * byte first.
   */
  lemma {:induction false} HoldingStoresReplyBytesSwapped(regs: seq<u16>, address: nat, buffer: seq<u8>, i: nat)
    requires |buffer| >= REPLY_BYTES_READ && DecodeReadResponse(buffer).Some?
    requires i < |DecodeReadResponse(buffer).value| && address + i < |regs|
    ensures Stored(regs, address, DecodeReadResponse(buffer).value)[address + i]
              == Word(buffer[3 + 2 * i], buffer[2 + 2 * i])
  {
    var v := DecodeReadResponse(buffer).value[i];
    var w := Ntohs(v);
    assert HighByte(w as nat) == buffer[3 + 2 * i] && LowByte(w as nat) == buffer[2 + 2 * i];
    WordOfBytes(w);
  }

  // ---------------------------------------------------- end-to-end exchanges

  /**
   * Reading two holding registers at address 0: the request is 03 00 00 00 02
   * and the reply 03 04 12 34 56 78 reaches the handler as [0x1234, 0x5678].
   */
  lemma ReadHoldingExchange(buffer: seq<u8>, wa: u16, wn: u16)
    requires |buffer| >= REPLY_BYTES_READ && buffer[..6] == [0x03, 0x04, 0x12, 0x34, 0x56, 0x78]
    ensures ReadRequestPdu(READ_HOLDING_REGISTERS, 0, 2) == [0x03, 0x00, 0x00, 0x00, 0x02]
    ensures ReplyCall(buffer, 0, wa, wn) == Some(ReadHoldingRegistersRsp(0, [0x1234, 0x5678]))
  {
    assert buffer[..6] == ReadResponsePdu(READ_HOLDING_REGISTERS, [0x1234, 0x5678]);
    ReadResponseDecodes(READ_HOLDING_REGISTERS, [0x1234, 0x5678], buffer);
  }

  /** A Write Single Register request: the function, the address high byte first, then the value low byte first. */
  lemma WriteSingleRequestBytes(address: u16, value: u16)
    ensures WriteRequestPdu(WRITE_SINGLE_REGISTER, address, [value])
            == [WRITE_SINGLE_REGISTER, HighByte(address as nat), LowByte(address as nat),
                LowByte(value as nat), HighByte(value as nat)]
  {
    EncodedPair([value], 0);
    var pdu := WriteRequestPdu(WRITE_SINGLE_REGISTER, address, [value]);
    assert pdu[3] == EncodeValues([value])[0] && pdu[4] == EncodeValues([value])[1];
  }

  /** Writing 0x00FF to register 5: the value goes out low byte first, as 06 00 05 FF 00. */
  lemma WriteSingleRegisterRequestBytes(address: u16, value: u16)
    requires address == 5 && value == 0x00FF
    ensures WriteRequestPdu(WRITE_SINGLE_REGISTER, address, [value]) == [0x06, 0x00, 0x05, 0xFF, 0x00]
  {
    assert HighByte(address as nat) == 0 && LowByte(address as nat) == 5;
    assert LowByte(value as nat) == 0xFF && HighByte(value as nat) == 0;
    WriteSingleRequestBytes(address, value);
  }

  /** The echo 06 00 05 00 FF of that write reaches the handler as address 5. */
  lemma WriteSingleRegisterReplyCall(buffer: seq<u8>, ra: u16, wa: u16, wn: u16)
    requires |buffer| >= REPLY_BYTES_READ && buffer[..5] == [0x06, 0x00, 0x05, 0x00, 0xFF]
    ensures ReplyCall(buffer, ra, wa, wn) == Some(WriteSingleRegisterRsp(5))
  {
    assert buffer[0] == 0x06 && buffer[1] == 0x00 && buffer[2] == 0x05;
    assert ReplyCall(buffer, ra, wa, wn) == WriteReplyCall(buffer, true);
    assert WriteReplyCall(buffer, true) == Some(WriteSingleRegisterRsp(5)) by {
      assert Word(0, 5) == 5;
    }
  }


}
