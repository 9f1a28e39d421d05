/**
 * The PDU-length tables of ModbusUtil: how many bytes a frame holds, derived
 * from its function code and, for variable-length frames, its byte-count
 * field. Every length counts the function code, the data and the two CRC
 * bytes (the station address is not counted). None stands for the (size_t)-1
 * the library returns when the length cannot be determined.
 */
module ModbusUtil {
  import opened ModbusTypes

  const PDU_LEN_FUNCTION: nat := 1
  const PDU_LEN_ADDRESS: nat := 2
  const PDU_LEN_BYTE_COUNT: nat := 1
  const PDU_LEN_QUANTITY: nat := 2
  const PDU_LEN_CRC: nat := 2

  // Request lengths.

  function ReqReadCoilStatus(): nat {
    PDU_LEN_FUNCTION + PDU_LEN_ADDRESS + PDU_LEN_QUANTITY + PDU_LEN_CRC
  }

  function ReqWriteMultipleCoils(byteCount: nat): nat {
    PDU_LEN_FUNCTION + PDU_LEN_ADDRESS + PDU_LEN_QUANTITY + PDU_LEN_BYTE_COUNT + byteCount + PDU_LEN_CRC
  }

  function ReqReadWriteMultipleRegisters(byteCount: nat): nat {
    PDU_LEN_FUNCTION + PDU_LEN_ADDRESS + PDU_LEN_QUANTITY
      + PDU_LEN_ADDRESS + PDU_LEN_QUANTITY + PDU_LEN_BYTE_COUNT + byteCount + PDU_LEN_CRC
  }

  // Response lengths.

  function RspReadCoilStatus(byteCount: nat): nat {
    PDU_LEN_FUNCTION + PDU_LEN_BYTE_COUNT + byteCount + PDU_LEN_CRC
  }

  function RspWriteSingleCoil(): nat {
    PDU_LEN_FUNCTION + PDU_LEN_ADDRESS + PDU_LEN_QUANTITY + PDU_LEN_CRC
  }

  /** pdu_len_req(func, byte_count): the request table. */
  function PduLenReqFor(func: u8, bc: nat): (r: Option<nat>)
    ensures (func in {READ_COIL_STATUS, READ_DISCRETE_INPUT_STATUS, READ_HOLDING_REGISTERS,
                      READ_INPUT_REGISTERS, WRITE_SINGLE_COIL, WRITE_SINGLE_REGISTER}) ==> r == Some(7)
    ensures func in {WRITE_MULTIPLE_COILS, WRITE_MULTIPLE_REGISTERS} ==>
              r == if bc == 0 then None else Some(8 + bc)
    ensures func == READ_WRITE_MULTIPLE_REGISTERS ==>
              r == if bc == 0 then None else Some(12 + bc)
    ensures !IsKnownFunction(func) ==> r == None
  {
    if func == READ_COIL_STATUS || func == READ_DISCRETE_INPUT_STATUS
       || func == READ_HOLDING_REGISTERS || func == READ_INPUT_REGISTERS
       || func == WRITE_SINGLE_COIL || func == WRITE_SINGLE_REGISTER then
      Some(ReqReadCoilStatus())
    else if func == WRITE_MULTIPLE_COILS || func == WRITE_MULTIPLE_REGISTERS then
      if bc != 0 then Some(ReqWriteMultipleCoils(bc)) else None
    else if func == READ_WRITE_MULTIPLE_REGISTERS then
      if bc != 0 then Some(ReqReadWriteMultipleRegisters(bc)) else None
    else
      None
  }

  /** pdu_len_rsp(func, byte_count): the response table. */
  function PduLenRspFor(func: u8, bc: nat): (r: Option<nat>)
    ensures (func in {READ_COIL_STATUS, READ_DISCRETE_INPUT_STATUS, READ_HOLDING_REGISTERS,
                      READ_INPUT_REGISTERS, READ_WRITE_MULTIPLE_REGISTERS}) ==>
              r == if bc == 0 then None else Some(4 + bc)
    ensures (func in {WRITE_SINGLE_COIL, WRITE_SINGLE_REGISTER,
                      WRITE_MULTIPLE_COILS, WRITE_MULTIPLE_REGISTERS}) ==> r == Some(7)
    ensures !IsKnownFunction(func) ==> r == None
  {
    if func == READ_COIL_STATUS || func == READ_DISCRETE_INPUT_STATUS
       || func == READ_HOLDING_REGISTERS || func == READ_INPUT_REGISTERS
       || func == READ_WRITE_MULTIPLE_REGISTERS then
      if bc != 0 then Some(RspReadCoilStatus(bc)) else None
    else if func == WRITE_SINGLE_COIL || func == WRITE_SINGLE_REGISTER
            || func == WRITE_MULTIPLE_COILS || func == WRITE_MULTIPLE_REGISTERS then
      Some(RspWriteSingleCoil())
    else
      None
  }

  /** Where a request keeps its byte count, if it has one. */
  function ReqByteCountPos(func: u8): Option<nat> {
    if func == WRITE_MULTIPLE_COILS || func == WRITE_MULTIPLE_REGISTERS then Some(5)
    else if func == READ_WRITE_MULTIPLE_REGISTERS then Some(9)
    else None
  }

  /** Where a response keeps its byte count, if it has one. */
  function RspByteCountPos(func: u8): Option<nat> {
    if func in {READ_COIL_STATUS, READ_DISCRETE_INPUT_STATUS, READ_HOLDING_REGISTERS,
                READ_INPUT_REGISTERS, READ_WRITE_MULTIPLE_REGISTERS} then Some(1)
    else None
  }

  /** The byte at pos when it lies inside the frame, else 0. */
  function ByteCountAt(buffer: seq<u8>, bufferLen: nat, pos: Option<nat>): (bc: nat)
    requires bufferLen <= |buffer|
    ensures pos.Some? && pos.value < bufferLen ==> bc == buffer[pos.value] as nat
    ensures !(pos.Some? && pos.value < bufferLen) ==> bc == 0
  {
    if pos.Some? && bufferLen > pos.value then buffer[pos.value] as nat else 0
  }

  /** pdu_len_req(buffer, buffer_len): the length of a received request. */
  function PduLenReq(buffer: seq<u8>, bufferLen: nat): (r: Option<nat>)
    requires bufferLen <= |buffer|
    ensures bufferLen == 0 ==> r == None
    ensures bufferLen > 0 && buffer[0] in {READ_COIL_STATUS, READ_DISCRETE_INPUT_STATUS, READ_HOLDING_REGISTERS,
                                           READ_INPUT_REGISTERS, WRITE_SINGLE_COIL, WRITE_SINGLE_REGISTER} ==>
              r == Some(7)
    ensures bufferLen > 0 && buffer[0] in {WRITE_MULTIPLE_COILS, WRITE_MULTIPLE_REGISTERS} ==>
              r == if bufferLen > 5 && buffer[5] != 0 then Some(8 + buffer[5] as nat) else None
    ensures bufferLen > 0 && buffer[0] == READ_WRITE_MULTIPLE_REGISTERS ==>
              r == if bufferLen > 9 && buffer[9] != 0 then Some(12 + buffer[9] as nat) else None
    ensures bufferLen > 0 && !IsKnownFunction(buffer[0]) ==> r == None
  {
    if bufferLen == 0 then None
    else
      var func := buffer[0];
      PduLenReqFor(func, ByteCountAt(buffer, bufferLen, ReqByteCountPos(func)))
  }

  /** pdu_len_rsp(buffer, buffer_len): the length of a received response. */
  function PduLenRsp(buffer: seq<u8>, bufferLen: nat): (r: Option<nat>)
    requires bufferLen <= |buffer|
    ensures bufferLen == 0 ==> r == None
    ensures bufferLen > 0 && buffer[0] in {READ_COIL_STATUS, READ_DISCRETE_INPUT_STATUS, READ_HOLDING_REGISTERS,
                                           READ_INPUT_REGISTERS, READ_WRITE_MULTIPLE_REGISTERS} ==>
              r == if bufferLen > 1 && buffer[1] != 0 then Some(4 + buffer[1] as nat) else None
    ensures bufferLen > 0 && buffer[0] in {WRITE_SINGLE_COIL, WRITE_SINGLE_REGISTER,
                                           WRITE_MULTIPLE_COILS, WRITE_MULTIPLE_REGISTERS} ==>
              r == Some(7)
    ensures bufferLen > 0 && !IsKnownFunction(buffer[0]) ==> r == None
  {
    if bufferLen == 0 then None
    else
      var func := buffer[0];
      PduLenRspFor(func, ByteCountAt(buffer, bufferLen, RspByteCountPos(func)))
  }

  /**
   * pdu_len: a slave (non-zero station address) receives requests, a master
   * (station address 0) receives responses.
   */
  function PduLen(stationAddress: u8, buffer: seq<u8>, bufferLen: nat): (r: Option<nat>)
    requires bufferLen <= |buffer|
    ensures stationAddress != 0 ==> r == PduLenReq(buffer, bufferLen)
    ensures stationAddress == 0 ==> r == PduLenRsp(buffer, bufferLen)
  {
    if stationAddress != 0 then PduLenReq(buffer, bufferLen) else PduLenRsp(buffer, bufferLen)
  }

  /** Only the first buffer_len bytes are ever read. */
  lemma PduLenReadsOnlyTheFrame(buffer: seq<u8>, other: seq<u8>, bufferLen: nat)
    requires bufferLen <= |buffer| && bufferLen <= |other|
    requires buffer[..bufferLen] == other[..bufferLen]
    ensures PduLenReq(buffer, bufferLen) == PduLenReq(other, bufferLen)
    ensures PduLenRsp(buffer, bufferLen) == PduLenRsp(other, bufferLen)
  {
    if bufferLen > 0 {
      assert buffer[0] == buffer[..bufferLen][0] == other[0];
      var pq := ReqByteCountPos(buffer[0]);
      if pq.Some? && pq.value < bufferLen {
        assert buffer[pq.value] == buffer[..bufferLen][pq.value] == other[pq.value];
      }
      var ps := RspByteCountPos(buffer[0]);
      if ps.Some? && ps.value < bufferLen {
        assert buffer[ps.value] == buffer[..bufferLen][ps.value] == other[ps.value];
      }
    }
  }

  /** Every length the buffer overloads produce lies in [5, 267]. */
  lemma PduLenBounds(buffer: seq<u8>, bufferLen: nat)
    requires bufferLen <= |buffer|
    ensures PduLenReq(buffer, bufferLen).Some? ==> 7 <= PduLenReq(buffer, bufferLen).value <= 267
    ensures PduLenRsp(buffer, bufferLen).Some? ==> 5 <= PduLenRsp(buffer, bufferLen).value <= 259
  {
  }

  /** Exception replies (function code with bit 0x80 set) have no table entry. */
  lemma ExceptionCodesHaveNoLength(func: u8, bc: nat)
    requires func >= 0x80
    ensures PduLenReqFor(func, bc) == None && PduLenRspFor(func, bc) == None
  {
  }

  /** A variable-length frame grows by one byte per byte of its byte count. */
  lemma LengthGrowsWithByteCount(func: u8, bc1: nat, bc2: nat)
    requires 0 < bc1 < bc2
    ensures PduLenReqFor(func, bc1).Some? && ReqByteCountPos(func).Some? ==>
              PduLenReqFor(func, bc2).value - PduLenReqFor(func, bc1).value == bc2 - bc1
    ensures PduLenRspFor(func, bc1).Some? && RspByteCountPos(func).Some? ==>
              PduLenRspFor(func, bc2).value - PduLenRspFor(func, bc1).value == bc2 - bc1
  {
  }
}
