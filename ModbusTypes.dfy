/** Fixed-width integer types and the protocol constants of ModbusTypes.h. */
module ModbusTypes {

  /** uint8_t */
  newtype u8 = x: int | 0 <= x < 0x100
  /** uint16_t */
  newtype u16 = x: int | 0 <= x < 0x1_0000

  /**
   * The width of unsigned int, which depends on the target: 16 bits on the
   * 8-bit AVR Arduino boards, 32 bits on the other platforms the library
   * builds for.
   */
  datatype UIntWidth = UInt16 | UInt32

  /** The modulus unsigned int arithmetic wraps at. */
  function UIntModulus(width: UIntWidth): nat {
    match width
    case UInt16 => 0x1_0000
    case UInt32 => 0x1_0000_0000
  }

  /** Width of system_tick_t: a 32-bit unsigned counter that wraps to 0. */
  const TICK_MODULUS: int := 0x1_0000_0000
  newtype Tick = x: int | 0 <= x < 0x1_0000_0000

  /** Size of the PDU buffer the library is built around (MODBUS_DATA_BUFFER_SIZE). */
  const MODBUS_DATA_BUFFER_SIZE: nat := 255

  // Function codes (section 6 of the Modbus Application Protocol V1.1b3).
  const READ_COIL_STATUS: u8 := 0x01
  const READ_DISCRETE_INPUT_STATUS: u8 := 0x02
  const READ_HOLDING_REGISTERS: u8 := 0x03
  const READ_INPUT_REGISTERS: u8 := 0x04
  const WRITE_SINGLE_COIL: u8 := 0x05
  const WRITE_SINGLE_REGISTER: u8 := 0x06
  const WRITE_MULTIPLE_COILS: u8 := 0x0f
  const WRITE_MULTIPLE_REGISTERS: u8 := 0x10
  const READ_WRITE_MULTIPLE_REGISTERS: u8 := 0x17

  /** The nine function codes the library knows. */
  predicate IsKnownFunction(func: u8) {
    func in {READ_COIL_STATUS, READ_DISCRETE_INPUT_STATUS, READ_HOLDING_REGISTERS,
             READ_INPUT_REGISTERS, WRITE_SINGLE_COIL, WRITE_SINGLE_REGISTER,
             WRITE_MULTIPLE_COILS, WRITE_MULTIPLE_REGISTERS, READ_WRITE_MULTIPLE_REGISTERS}
  }

  // Exception codes (section 7 of the Modbus Application Protocol V1.1b3).
  // The enumeration is filled by a cast from a received byte, so any byte
  // value can occur; the codes are kept as bytes with named constants.
  const EXCEPTION_OK: u8 := 0
  const ILLEGAL_FUNCTION: u8 := 0x01
  const ILLEGAL_DATA_ADDRESS: u8 := 0x02
  const ILLEGAL_DATA_VALUE: u8 := 0x03
  const SERVER_DEVICE_FAILURE: u8 := 0x04
  const ACKNOWLEDGE: u8 := 0x05
  const SERVER_DEVICE_BUSY: u8 := 0x06
  const MEMORY_PARITY_ERROR: u8 := 0x08
  const GATEWAY_PATH_UNAVAILABLE: u8 := 0x0a
  const GATEWAY_TARGET_FAILED_TO_RESPOND: u8 := 0x0b

  datatype Option<T> = None | Some(value: T)
}
