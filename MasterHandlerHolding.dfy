/**
 * CModbusMasterHandlerHolding: a master handler that copies the registers a
 * slave returns into an array of holding registers owned by the application.
 */
module MasterHandlerHolding {
  import opened ModbusTypes
  import opened ModbusInterface

  /**
   * regs with the entries from address on replaced by the swapped values;
   * entries past the end of regs are dropped.
   */
  function Stored(regs: seq<u16>, address: nat, values: seq<u16>): (r: seq<u16>)
    ensures |r| == |regs|
    ensures forall j :: 0 <= j < |regs| && !(address <= j < address + |values|) ==> r[j] == regs[j]
    ensures forall j :: address <= j < address + |values| && j < |regs| ==>
              HighByte(r[j] as nat) == LowByte(values[j - address] as nat)
              && LowByte(r[j] as nat) == HighByte(values[j - address] as nat)
  {
    var s := seq(|regs|, j requires 0 <= j < |regs| =>
      if address <= j < address + |values| then Ntohs(values[j - address]) else regs[j]);
    assert forall j :: address <= j < address + |values| && j < |regs| ==> s[j] == Ntohs(values[j - address]);
    s
  }

  class HoldingHandler {
    /** The register array (m_array) and the number of registers it holds (m_len). */
    const registers: array<u16>
    const len: nat

    constructor (registers: array<u16>, len: nat)
      requires len <= registers.Length
      ensures this.registers == registers && this.len == len
    {
      this.registers := registers;
      this.len := len;
    }

    /**
     * The bounds check of both callbacks: n > len, address >= len and
     * address + n > len are each rejected, so an address at or past the end
     * fails even for n == 0.
     */
    predicate Accepts(address: u16, n: nat)
      ensures Accepts(address, n) <==> address as nat < len && address as nat + n <= len
    {
      !(n > len || address as nat >= len || address as nat + n > len)
    }

    /**
     * read_holding_registers_rsp: on success register address + i receives
     * ntohs(values[i]) for every i < n; nothing else changes.
     */
    method ReadHoldingRegistersRsp(address: u16, n: nat, values: seq<u16>) returns (ok: bool)
      requires n <= |values| && len <= registers.Length
      modifies registers
      ensures ok == Accepts(address, n)
      ensures ok ==> forall i :: 0 <= i < n ==> registers[address as nat + i] == Ntohs(values[i])
      ensures forall j :: 0 <= j < registers.Length && !(ok && address as nat <= j < address as nat + n) ==>
                registers[j] == old(registers[j])
      ensures registers[..] == if ok then Stored(old(registers[..]), address as nat, values[..n]) else old(registers[..])
    {
      if n > len || address as nat >= len || address as nat + n > len {
        return false;
      }
      var i := 0;
      while i < n
        invariant 0 <= i <= n
        invariant forall k :: 0 <= k < i ==> registers[address as nat + k] == Ntohs(values[k])
        invariant forall j :: 0 <= j < registers.Length && !(address as nat <= j < address as nat + i) ==>
                    registers[j] == old(registers[j])
      {
        registers[address as nat + i] := Ntohs(values[i]);
        i := i + 1;
      }
      ok := true;
      assert registers[..] == Stored(old(registers[..]), address as nat, values[..n]);
    }

    /** write_multiple_registers_rsp: the bounds check alone; the array is not touched. */
    method WriteMultipleRegistersRsp(address: u16, count: nat) returns (ok: bool)
      ensures ok <==> address as nat < len && address as nat + count <= len
    {
      ok := !(count > len || address as nat >= len || address as nat + count > len);
    }
  }
}
