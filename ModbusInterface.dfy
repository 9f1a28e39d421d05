/**
 * The interface layer of ModbusInterface.h: the byte-swap helpers, the
 * state an IFramer exposes to the application layer, the callbacks a master
 * handler receives, and the default behaviour of ISlaveHandler.
 */
module ModbusInterface {
  import opened ModbusTypes

  /** (uint8_t) (x >> 8): the second-lowest byte of an unsigned value. */
  function HighByte(x: nat): u8 {
    ((x / 0x100) % 0x100) as u8
  }

  /** (uint8_t) x: the lowest byte of an unsigned value. */
  function LowByte(x: nat): u8 {
    (x % 0x100) as u8
  }

  /** The 16-bit word whose bytes, most significant first, are hi and lo. */
  function Word(hi: u8, lo: u8): (w: u16)
    ensures HighByte(w as nat) == hi && LowByte(w as nat) == lo
  {
    (hi as int * 0x100 + lo as int) as u16
  }

  /** htons: the two bytes of value exchanged. */
  function Htons(value: u16): (r: u16)
    ensures HighByte(r as nat) == LowByte(value as nat)
    ensures LowByte(r as nat) == HighByte(value as nat)
  {
    Word(LowByte(value as nat), HighByte(value as nat))
  }

  /** ntohs: the same unconditional exchange as htons. */
  function Ntohs(value: u16): (r: u16)
    ensures HighByte(r as nat) == LowByte(value as nat)
    ensures LowByte(r as nat) == HighByte(value as nat)
  {
    Htons(value)
  }

  /**
   * The expression both helpers evaluate, (value << 8) | (value >> 8)
   * truncated to 16 bits, is that exchange: the two shifted parts do not
   * overlap, so the or is a sum.
   */
  lemma ShiftOrIsSwap(value: u16)
    ensures (value as int * 0x100) % 0x1_0000 + value as int / 0x100 == Htons(value) as int
    ensures Htons(value) == Ntohs(value)
  {
    var hi := value as int / 0x100;
    var lo := value as int % 0x100;
    assert value as int * 0x100 == hi * 0x1_0000 + lo * 0x100;
    assert (hi * 0x1_0000 + lo * 0x100) % 0x1_0000 == lo * 0x100;
  }

  /** A 16-bit value is determined by its two bytes. */
  lemma WordOfBytes(w: u16)
    ensures Word(HighByte(w as nat), LowByte(w as nat)) == w
  {
  }

  /** Swapping twice gives the value back, in either order of the helpers. */
  lemma {:induction false} SwapInvolution(v: u16)
    ensures Ntohs(Htons(v)) == v
    ensures Htons(Ntohs(v)) == v
    ensures Ntohs(Ntohs(v)) == v
  {
    var s := Htons(v);
    WordOfBytes(v);
    WordOfBytes(Ntohs(s));
    WordOfBytes(Htons(Ntohs(v)));
    WordOfBytes(Ntohs(Ntohs(v)));
  }

  /**
   * ntohs(0x00ff) is 0xff00 whatever the host: the "host is big-endian"
   * test of the read decoder is always false, so its conversion loop always runs.
   */
  lemma SwapIsUnconditional()
    ensures Ntohs(0x00ff) == 0xff00 && Ntohs(0x00ff) != 0x00ff
  {
    assert LowByte(0xff) == 0xff && HighByte(0xff) == 0;
    assert Word(0xff, 0) == 0xff00;
  }

  /** The calls the application layer makes into the link layer. */
  datatype LinkCall = BeginSend | Send | Finished

  /** The IFramer fields other than the buffer and its capacity. */
  datatype FramerFields = FramerFields(bufferLen: nat, stationAddress: u8, frameAddress: u8, handler: object?)

  /**
   * The IFramer base state. The RTU and ASCII framers that derive from it are
   * not modelled: begin_send's answer is a parameter, and begin_send, send and
   * finished are recorded in a ghost log.
   */
  class Framer {
    const buffer: array<u8>
    const bufferMax: nat
    var bufferLen: nat
    var handler: object?
    var stationAddress: u8
    var frameAddress: u8
    ghost var log: seq<LinkCall>

    /** The caller-owned storage holds buffer_max bytes. */
    ghost predicate Valid() {
      bufferMax <= buffer.Length
    }

    ghost function Fields(): FramerFields
      reads this
    {
      FramerFields(bufferLen, stationAddress, frameAddress, handler)
    }

    constructor (buffer: array<u8>, bufferMax: nat)
      requires bufferMax <= buffer.Length
      ensures Valid() && this.buffer == buffer && this.bufferMax == bufferMax
      ensures Fields() == FramerFields(0, 0, 0, null) && log == []
    {
      this.buffer := buffer;
      this.bufferMax := bufferMax;
      bufferLen := 0;
      handler := null;
      stationAddress := 0;
      frameAddress := 0;
      log := [];
    }

    method SetHandler(h: object?)
      modifies this`handler
      ensures Fields() == old(Fields()).(handler := h)
    {
      handler := h;
    }

    function StationAddress(): u8
      reads this
    {
      stationAddress
    }

    method SetStationAddress(address: u8)
      modifies this`stationAddress
      ensures StationAddress() == address
      ensures Fields() == old(Fields()).(stationAddress := address)
    {
      stationAddress := address;
    }

    function FrameAddress(): u8
      reads this
    {
      frameAddress
    }

    method SetFrameAddress(address: u8)
      modifies this`frameAddress
      ensures FrameAddress() == address
      ensures Fields() == old(Fields()).(frameAddress := address)
    {
      frameAddress := address;
    }

    function BufferLen(): nat
      reads this
    {
      bufferLen
    }

    method SetBufferLen(len: nat)
      modifies this`bufferLen
      ensures BufferLen() == len
      ensures Fields() == old(Fields()).(bufferLen := len)
    {
      bufferLen := len;
    }

    /** There is no setter: the capacity is fixed at construction. */
    function BufferMax(): nat {
      bufferMax
    }

    /** Reserves the buffer; grant is the answer of the concrete framer. */
    method BeginSend(grant: bool) returns (ok: bool)
      modifies this`log
      ensures ok == grant
      ensures log == old(log) + [LinkCall.BeginSend]
    {
      ok := grant;
      log := log + [LinkCall.BeginSend];
    }

    method Send()
      modifies this`log
      ensures log == old(log) + [LinkCall.Send]
    {
      log := log + [LinkCall.Send];
    }

    method Finished()
      modifies this`log
      ensures log == old(log) + [LinkCall.Finished]
    {
      log := log + [LinkCall.Finished];
    }
  }

  /**
   * One invocation of an IMasterHandler callback, with the arguments the
   * engine passes. The register count of a read is the length of values.
   */
  datatype HandlerCall =
    | ReadCoilsRsp
    | ReadDiscreteInputsRsp
    | ReadHoldingRegistersRsp(address: u16, values: seq<u16>)
    | ReadInputRegistersRsp(address: u16, values: seq<u16>)
    | WriteSingleCoilRsp
    | WriteSingleRegisterRsp(address: u16)
    | WriteMultipleCoilsRsp
    | WriteMultipleRegistersRsp(address: u16, n: nat)
    | ReadWriteMultipleRegistersRsp(readAddress: u16, readValues: seq<u16>, writeAddress: u16, writeN: nat)
    | ResponseTimeOut
    | ExceptionResponse(code: u8)

  /**
   * The two ISlaveHandler callbacks that the single-write defaults dispatch to
   * (virtually, so a derived handler's overrides are the ones reached).
   */
  datatype SlaveWrites = SlaveWrites(
    writeMultipleCoils: (u16, u16, seq<u8>) -> u8,
    writeMultipleRegisters: (u16, u16, seq<u16>) -> u8)

  function SlaveReadCoils(address: u16, n: u16): u8 {
    ILLEGAL_FUNCTION
  }

  function SlaveReadDiscreteInputs(address: u16, n: u16): u8 {
    ILLEGAL_FUNCTION
  }

  function SlaveReadHoldingRegisters(address: u16, n: u16): u8 {
    ILLEGAL_FUNCTION
  }

  function SlaveReadInputRegisters(address: u16, n: u16): u8 {
    ILLEGAL_FUNCTION
  }

  function SlaveWriteMultipleCoils(address: u16, n: u16, values: seq<u8>): u8 {
    ILLEGAL_FUNCTION
  }

  function SlaveWriteMultipleRegisters(address: u16, n: u16, values: seq<u16>): u8 {
    ILLEGAL_FUNCTION
  }

  /** The base-class callbacks, as a handler that overrides nothing sees them. */
  const SlaveDefaults: SlaveWrites := SlaveWrites(SlaveWriteMultipleCoils, SlaveWriteMultipleRegisters)

  /** write_single_coil: a one-coil multiple write whose coil byte is 1 or 0. */
  function SlaveWriteSingleCoil(h: SlaveWrites, address: u16, value: bool): u8 {
    h.writeMultipleCoils(address, 1, [if value then 1 else 0])
  }

  /** write_single_register: a one-register multiple write of value. */
  function SlaveWriteSingleRegister(h: SlaveWrites, address: u16, value: u16): u8 {
    h.writeMultipleRegisters(address, 1, [value])
  }

  /**
   * A handler that overrides nothing answers illegal_function to every
   * request, the single writes included.
   */
  lemma SlaveDefaultsRejectAll(address: u16, n: u16, coils: seq<u8>, regs: seq<u16>, coil: bool, value: u16)
    ensures SlaveReadCoils(address, n) == ILLEGAL_FUNCTION
    ensures SlaveReadDiscreteInputs(address, n) == ILLEGAL_FUNCTION
    ensures SlaveReadHoldingRegisters(address, n) == ILLEGAL_FUNCTION
    ensures SlaveReadInputRegisters(address, n) == ILLEGAL_FUNCTION
    ensures SlaveWriteMultipleCoils(address, n, coils) == ILLEGAL_FUNCTION
    ensures SlaveWriteMultipleRegisters(address, n, regs) == ILLEGAL_FUNCTION
    ensures SlaveWriteSingleCoil(SlaveDefaults, address, coil) == ILLEGAL_FUNCTION
    ensures SlaveWriteSingleRegister(SlaveDefaults, address, value) == ILLEGAL_FUNCTION
  {
  }

  /**
   * The single writes reach whatever multiple-write callbacks the handler
   * has: a coil write carries one coil, set iff value, and a register write
   * carries the one value.
   */
  lemma SlaveSingleWritesDelegate(h: SlaveWrites, address: u16, coil: bool, value: u16)
    ensures SlaveWriteSingleCoil(h, address, coil) == h.writeMultipleCoils(address, 1, [if coil then 1 else 0])
    ensures SlaveWriteSingleRegister(h, address, value) == h.writeMultipleRegisters(address, 1, [value])
  {
  }
}
