/**
 * The byte layouts the master engine writes and reads (ModbusMaster.cpp),
 * as functions of the request arguments and of the received buffer. The
 * engine's methods are proved to produce exactly these.
 */
module MasterPdu {
  import opened ModbusTypes
  import opened ModbusInterface

  /** The largest register count sanity_check lets through (0x7b = 123). */
  const MAX_REQUEST_COUNT: nat := 0x7b

  /** Function code, starting address and quantity. */
  const READ_REQUEST_LEN: nat := 5

  /** The decoders read up to this many bytes whatever buffer_len says. */
  const REPLY_BYTES_READ: nat := 252

  /**
   * The count test of sanity_check as written, (0x0001 < n) && (n > 0x007b):
   * n == 0 and n == 1 pass, and so does everything up to 123.
   */
  predicate CountRejected(n: nat)
    ensures CountRejected(n) <==> n > MAX_REQUEST_COUNT
  {
    0x0001 < n && n > 0x007b
  }

  /** s with its first |p| bytes replaced by p. */
  function Overwrite(s: seq<u8>, p: seq<u8>): (r: seq<u8>)
    requires |p| <= |s|
    ensures |r| == |s| && r[..|p|] == p && r[|p|..] == s[|p|..]
  {
    p + s[|p|..]
  }

  /** The 16-bit words, most significant byte first. */
  function BigEndianBytes(words: seq<u16>): (r: seq<u8>)
    ensures |r| == 2 * |words|
  {
    if words == [] then []
    else [HighByte(words[0] as nat), LowByte(words[0] as nat)] + BigEndianBytes(words[1..])
  }

  /** count words stored most significant byte first from start on. */
  function BigEndianWords(s: seq<u8>, start: nat, count: nat): (r: seq<u16>)
    requires start + 2 * count <= |s|
    ensures |r| == count
  {
    seq(count, i requires 0 <= i < count => Word(s[start + 2 * i], s[start + 2 * i + 1]))
  }

  /** count words as a little-endian host reads them through a uint16_t pointer. */
  function HostWords(s: seq<u8>, start: nat, count: nat): (r: seq<u16>)
    requires start + 2 * count <= |s|
    ensures |r| == count
  {
    seq(count, i requires 0 <= i < count => Word(s[start + 2 * i + 1], s[start + 2 * i]))
  }

  /** s with the two bytes of each of count pairs from start on exchanged. */
  function SwapPairs(s: seq<u8>, start: nat, count: nat): (r: seq<u8>)
    requires start + 2 * count <= |s|
    ensures |r| == |s|
  {
    seq(|s|, j requires 0 <= j < |s| =>
      if start <= j < start + 2 * count then
        (if (j - start) % 2 == 0 then s[j + 1] else s[j - 1])
      else s[j])
  }

  function SwappedWords(data: seq<u16>): (r: seq<u16>)
    ensures |r| == |data|
  {
    seq(|data|, i requires 0 <= i < |data| => Htons(data[i]))
  }

  /**
   * The data bytes of a write request: each value goes through htons and is
   * then split most significant byte first.
   */
  function EncodeValues(data: seq<u16>): (r: seq<u8>)
    ensures |r| == 2 * |data|
  {
    BigEndianBytes(SwappedWords(data))
  }

  /** Word i of a big-endian encoding occupies bytes 2i (high) and 2i + 1 (low). */
  lemma {:induction false} BigEndianPair(words: seq<u16>, i: nat)
    requires i < |words|
    ensures BigEndianBytes(words)[2 * i] == HighByte(words[i] as nat)
    ensures BigEndianBytes(words)[2 * i + 1] == LowByte(words[i] as nat)
  {
    if i > 0 {
      BigEndianPair(words[1..], i - 1);
    }
  }

  /** The pair of bytes value i of a write request occupies: its swapped word, high byte first. */
  lemma EncodedPair(data: seq<u16>, i: nat)
    requires i < |data|
    ensures EncodeValues(data)[2 * i] == HighByte(Htons(data[i]) as nat)
    ensures EncodeValues(data)[2 * i + 1] == LowByte(Htons(data[i]) as nat)
  {
    BigEndianPair(SwappedWords(data), i);
  }

  /** A sequence whose pairs are exchanged pointwise and is otherwise unchanged is SwapPairs. */
  lemma SwapPairsPointwise(s: seq<u8>, t: seq<u8>, start: nat, count: nat)
    requires start + 2 * count <= |s| == |t|
    requires forall k :: 0 <= k < count ==> t[start + 2 * k] == s[start + 2 * k + 1] && t[start + 2 * k + 1] == s[start + 2 * k]
    requires forall j :: 0 <= j < |s| && !(start <= j < start + 2 * count) ==> t[j] == s[j]
    ensures t == SwapPairs(s, start, count)
  {
    forall j | 0 <= j < |s|
      ensures t[j] == SwapPairs(s, start, count)[j]
    {
      if start <= j < start + 2 * count {
        var k := (j - start) / 2;
        assert j == start + 2 * k || j == start + 2 * k + 1;
      }
    }
  }

  /**
   * Reading each swapped pair low byte first, as a little-endian host does
   * through a uint16_t pointer, yields the big-endian words of the original
   * bytes.
   */
  lemma {:induction false} HostReadOfSwappedPairs(s: seq<u8>, start: nat, count: nat)
    requires start + 2 * count <= |s|
    ensures HostWords(SwapPairs(s, start, count), start, count) == BigEndianWords(s, start, count)
  {
    var t := SwapPairs(s, start, count);
    forall i | 0 <= i < count
      ensures HostWords(t, start, count)[i] == BigEndianWords(s, start, count)[i]
    {
      assert t[start + 2 * i] == s[start + 2 * i + 1];
      assert t[start + 2 * i + 1] == s[start + 2 * i];
    }
  }

  /** A sequence that agrees with p on [start, start + |p|) and with s elsewhere. */
  lemma SplicePointwise(s: seq<u8>, t: seq<u8>, start: nat, p: seq<u8>)
    requires start + |p| <= |s| == |t|
    requires forall k :: 0 <= k < |p| ==> t[start + k] == p[k]
    requires forall j :: 0 <= j < |s| && !(start <= j < start + |p|) ==> t[j] == s[j]
    ensures t == s[..start] + p + s[start + |p|..]
  {
    forall j | 0 <= j < |s|
      ensures t[j] == (s[..start] + p + s[start + |p|..])[j]
    {
      if start <= j < start + |p| {
        assert t[start + (j - start)] == p[j - start];
      }
    }
  }

  // ---------------------------------------------------------------- requests

  /** read_registers_req: function, address and quantity, each big-endian. */
  function ReadRequestPdu(func: u8, address: u16, n: u16): (r: seq<u8>)
    ensures |r| == READ_REQUEST_LEN
  {
    [func, HighByte(address as nat), LowByte(address as nat), HighByte(n as nat), LowByte(n as nat)]
  }

  /** The buffer_len write_registers_req sets: no count fields when n == 1. */
  function WriteRequestLen(n: nat): (r: nat)
    ensures n != 1 ==> r == 6 + 2 * n
    ensures n == 1 ==> r == 3 + 2 * n
  {
    1 + 2 + (if n != 1 then 2 + 1 else 0) + 2 * n
  }

  /** Function, big-endian address and, for function 0x10 only, count and byte count (2n mod 256). */
  function WriteRequestHeader(func: u8, address: u16, n: nat): seq<u8> {
    [func, HighByte(address as nat), LowByte(address as nat)]
      + (if func == WRITE_MULTIPLE_REGISTERS then [HighByte(n), LowByte(n), LowByte(2 * n)] else [])
  }

  /** The bytes write_registers_req writes. */
  function WriteRequestPdu(func: u8, address: u16, data: seq<u16>): (r: seq<u8>)
    ensures |r| == (if func == WRITE_MULTIPLE_REGISTERS then 6 else 3) + 2 * |data|
  {
    WriteRequestHeader(func, address, |data|) + EncodeValues(data)
  }

  /** The buffer_len read_write_registers_req sets: the read count stands where 2 bytes belong. */
  function ReadWriteRequestLen(readN: nat, writeN: nat): (r: nat)
    ensures r == 10 + 2 * writeN <==> readN == 2
    ensures r > 7 + 2 * writeN
  {
    1 + 2 + readN + 2 + 2 + 1 + 2 * writeN
  }

  /** Function, read address and count, write address and count, and byte count (2n mod 256). */
  function ReadWriteRequestHeader(func: u8, readAddress: u16, readN: u16, writeAddress: u16, n: nat): seq<u8> {
    [func, HighByte(readAddress as nat), LowByte(readAddress as nat),
     HighByte(readN as nat), LowByte(readN as nat),
     HighByte(writeAddress as nat), LowByte(writeAddress as nat),
     HighByte(n), LowByte(n), LowByte(2 * n)]
  }

  /** The bytes read_write_registers_req writes. */
  function ReadWriteRequestPdu(func: u8, readAddress: u16, readN: u16, writeAddress: u16, data: seq<u16>): (r: seq<u8>)
    ensures |r| == 10 + 2 * |data|
  {
    ReadWriteRequestHeader(func, readAddress, readN, writeAddress, |data|) + EncodeValues(data)
  }

  // ----------------------------------------------------------------- replies

  /**
   * read_registers_rsp's checks: the byte count buffer[1] must be even and in
   * [2, 250]; the values are then the big-endian words that follow it.
   */
  function DecodeReadResponse(buffer: seq<u8>): (r: Option<seq<u16>>)
    requires |buffer| >= REPLY_BYTES_READ
    ensures r.Some? <==> 2 <= buffer[1] <= 2 * 0x7d && buffer[1] % 2 == 0
    ensures r.Some? ==> |r.value| == buffer[1] as nat / 2
                        && forall i :: 0 <= i < |r.value| ==>
                             HighByte(r.value[i] as nat) == buffer[2 + 2 * i]
                             && LowByte(r.value[i] as nat) == buffer[3 + 2 * i]
  {
    var count := buffer[1];
    if count < 2 * 1 || count > 2 * 0x7d then None
    else if count % 2 != 0 then None
    else Some(BigEndianWords(buffer, 2, count as nat / 2))
  }

  /**
   * write_registers_rsp's decoding: the big-endian echoed address and, for
   * function 0x10, the big-endian quantity, which must lie in [1, 0x7b].
   */
  function WriteReplyCall(buffer: seq<u8>, single: bool): (r: Option<HandlerCall>)
    requires |buffer| >= REPLY_BYTES_READ
    ensures single ==> r == Some(WriteSingleRegisterRsp(Word(buffer[1], buffer[2])))
    ensures !single ==> (r.Some? <==> 1 <= Word(buffer[3], buffer[4]) as nat <= MAX_REQUEST_COUNT)
    ensures !single && r.Some? ==>
              r.value == WriteMultipleRegistersRsp(Word(buffer[1], buffer[2]), Word(buffer[3], buffer[4]) as nat)
  {
    var address := Word(buffer[1], buffer[2]);
    if single then Some(WriteSingleRegisterRsp(address))
    else
      var n := Word(buffer[3], buffer[4]) as nat;
      if n < 1 || n > 0x7b then None else Some(WriteMultipleRegistersRsp(address, n))
  }

  /** The callback a register read reply leads to. */
  function ReadReplyCall(func: u8, values: seq<u16>, readAddress: u16, writeAddress: u16, writeN: u16): (r: HandlerCall)
    ensures r.ReadHoldingRegistersRsp? <==> func == READ_HOLDING_REGISTERS
    ensures r.ReadInputRegistersRsp? <==> func == READ_INPUT_REGISTERS
    ensures r.ReadHoldingRegistersRsp? || r.ReadInputRegistersRsp? || r.ReadWriteMultipleRegistersRsp?
    ensures (r.ReadHoldingRegistersRsp? || r.ReadInputRegistersRsp?) ==> r.address == readAddress && r.values == values
    ensures r.ReadWriteMultipleRegistersRsp? ==>
              r.readAddress == readAddress && r.readValues == values
              && r.writeAddress == writeAddress && r.writeN == writeN as nat
  {
    if func == READ_HOLDING_REGISTERS then ReadHoldingRegistersRsp(readAddress, values)
    else if func == READ_INPUT_REGISTERS then ReadInputRegistersRsp(readAddress, values)
    else ReadWriteMultipleRegistersRsp(readAddress, values, writeAddress, writeN as nat)
  }

  predicate IsRegisterRead(func: u8) {
    func == READ_HOLDING_REGISTERS || func == READ_INPUT_REGISTERS || func == READ_WRITE_MULTIPLE_REGISTERS
  }

  /**
   * The callback frame_ready makes for a reply from the expected slave, if
   * any: None when a decoder rejects the reply or the function code is
   * unknown and not an exception.
   */
  function ReplyCall(buffer: seq<u8>, readAddress: u16, writeAddress: u16, writeN: u16): (r: Option<HandlerCall>)
    requires |buffer| >= REPLY_BYTES_READ
    ensures buffer[0] >= 0x80 ==> r == Some(ExceptionResponse(buffer[1]))
    ensures buffer[0] < 0x80 && !IsKnownFunction(buffer[0]) ==> r == None
    ensures IsRegisterRead(buffer[0]) ==>
              r == match DecodeReadResponse(buffer)
                   case None => None
                   case Some(values) => Some(ReadReplyCall(buffer[0], values, readAddress, writeAddress, writeN))
    ensures buffer[0] == READ_COIL_STATUS ==> r == Some(ReadCoilsRsp)
    ensures buffer[0] == READ_DISCRETE_INPUT_STATUS ==> r == Some(ReadDiscreteInputsRsp)
    ensures buffer[0] == WRITE_SINGLE_COIL ==> r == Some(WriteSingleCoilRsp)
    ensures buffer[0] == WRITE_MULTIPLE_COILS ==> r == Some(WriteMultipleCoilsRsp)
    ensures buffer[0] == WRITE_SINGLE_REGISTER ==> r == Some(WriteSingleRegisterRsp(Word(buffer[1], buffer[2])))
    ensures buffer[0] == WRITE_MULTIPLE_REGISTERS ==>
              (r.Some? <==> 1 <= Word(buffer[3], buffer[4]) as nat <= MAX_REQUEST_COUNT)
              && (r.Some? ==> r.value == WriteMultipleRegistersRsp(Word(buffer[1], buffer[2]), Word(buffer[3], buffer[4]) as nat))
  {
    var func := buffer[0];
    if func == READ_COIL_STATUS then Some(ReadCoilsRsp)
    else if func == READ_DISCRETE_INPUT_STATUS then Some(ReadDiscreteInputsRsp)
    else if IsRegisterRead(func) then
      match DecodeReadResponse(buffer)
      case None => None
      case Some(values) => Some(ReadReplyCall(func, values, readAddress, writeAddress, writeN))
    else if func == WRITE_SINGLE_COIL then Some(WriteSingleCoilRsp)
    else if func == WRITE_SINGLE_REGISTER then WriteReplyCall(buffer, true)
    else if func == WRITE_MULTIPLE_COILS then Some(WriteMultipleCoilsRsp)
    else if func == WRITE_MULTIPLE_REGISTERS then WriteReplyCall(buffer, false)
    else if func >= 0x80 then Some(ExceptionResponse(buffer[1]))
    else None
  }

  /**
   * Whether the callback's answer decides the outcome: function 0x02
   * discards it, an exception reply forces failure.
   */
  predicate Decisive(func: u8)
    ensures Decisive(func) ==> func < 0x80 && func != READ_DISCRETE_INPUT_STATUS
  {
    IsKnownFunction(func) && func != READ_DISCRETE_INPUT_STATUS
  }

  /** The buffer after frame_ready: the register words of a valid read reply swapped in place. */
  function BufferAfterReply(buffer: seq<u8>): (r: seq<u8>)
    requires |buffer| >= REPLY_BYTES_READ
    ensures |r| == |buffer| && r[0] == buffer[0] && r[1] == buffer[1]
    ensures IsRegisterRead(buffer[0]) && DecodeReadResponse(buffer).Some? ==>
              HostWords(r, 2, |DecodeReadResponse(buffer).value|) == DecodeReadResponse(buffer).value
    ensures !(IsRegisterRead(buffer[0]) && DecodeReadResponse(buffer).Some?) ==> r == buffer
  {
    if IsRegisterRead(buffer[0]) && DecodeReadResponse(buffer).Some? then
      HostReadOfSwappedPairs(buffer, 2, buffer[1] as nat / 2);
      SwapPairs(buffer, 2, buffer[1] as nat / 2)
    else buffer
  }

  // ---------------------------------------------- reference reply encodings

  /**
   * A register read reply as section 6.3 of the Modbus Application Protocol
   * V1.1b3 lays it out: function, byte count, values most significant byte first.
   */
  function ReadResponsePdu(func: u8, values: seq<u16>): seq<u8>
    requires |values| <= 0x7d
  {
    [func, (2 * |values|) as u8] + BigEndianBytes(values)
  }

  /** A Write Multiple Registers reply (section 6.12): function, address, quantity. */
  function WriteMultipleResponsePdu(address: u16, n: u16): seq<u8> {
    [WRITE_MULTIPLE_REGISTERS, HighByte(address as nat), LowByte(address as nat), HighByte(n as nat), LowByte(n as nat)]
  }
}
