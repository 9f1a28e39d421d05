/**
 * The application handler a master reports to. IMasterHandler is a class of
 * virtual callbacks with default bodies; the model fixes the handlers the
 * library ships (the interface's own defaults, CModbusMasterHandlerBase and
 * CModbusMasterHandlerHolding) plus an application handler whose answers are
 * an arbitrary function of the call and which has no other effect.
 */
module MasterHandlers {
  import opened ModbusTypes
  import opened ModbusInterface
  import opened MasterHandlerHolding

  datatype HandlerKind =
    | InterfaceDefaults                          // IMasterHandler as declared
    | AlwaysTrue                                 // CModbusMasterHandlerBase
    | Holding(store: HoldingHandler)             // CModbusMasterHandlerHolding
    | Application(answer: HandlerCall -> bool)   // any side-effect-free handler

  /**
   * IMasterHandler's read_write_multiple_registers_rsp: the handler's own
   * write_multiple_registers_rsp, then, only if that succeeded, its
   * read_holding_registers_rsp.
   */
  function DefaultReadWrite(writeOk: bool, readOk: bool): (ok: bool)
    ensures ok <==> writeOk && readOk
  {
    if writeOk then readOk else false
  }

  /** What a handler that does not override a callback answers to it. */
  function DefaultAnswer(c: HandlerCall): (ok: bool)
    ensures ok
  {
    match c
    case ReadWriteMultipleRegistersRsp(_, _, _, _) => DefaultReadWrite(true, true)
    case _ => true
  }

  /** CModbusMasterHandlerBase: every override answers true; the combined call is inherited. */
  function BaseAnswer(c: HandlerCall): (ok: bool)
    ensures ok
  {
    DefaultAnswer(c)
  }

  class MasterHandler {
    const kind: HandlerKind
    /** Every callback the engine has made, in order. */
    ghost var calls: seq<HandlerCall>

    ghost predicate Valid() {
      kind.Holding? ==> kind.store.len <= kind.store.registers.Length
    }

    constructor (kind: HandlerKind)
      requires kind.Holding? ==> kind.store.len <= kind.store.registers.Length
      ensures Valid() && this.kind == kind && calls == []
    {
      this.kind := kind;
      calls := [];
    }

    /** The objects a callback may change: the holding handler's registers. */
    function Store(): set<object> {
      if kind.Holding? then {kind.store.registers} else {}
    }

    ghost function Registers(): seq<u16>
      reads Store()
    {
      if kind.Holding? then kind.store.registers[..] else []
    }

    /** The value a callback returns. */
    function Answer(c: HandlerCall): (ok: bool)
      ensures kind.InterfaceDefaults? || kind.AlwaysTrue? ==> ok
      ensures kind.Application? ==> ok == kind.answer(c)
      ensures kind.Holding? && c.ReadHoldingRegistersRsp? ==> (ok <==> kind.store.Accepts(c.address, |c.values|))
      ensures kind.Holding? && c.WriteMultipleRegistersRsp? ==> (ok <==> kind.store.Accepts(c.address, c.n))
      ensures kind.Holding? && c.ReadWriteMultipleRegistersRsp? ==>
                (ok <==> kind.store.Accepts(c.writeAddress, c.writeN) && kind.store.Accepts(c.readAddress, |c.readValues|))
      ensures (kind.Holding? && !c.ReadHoldingRegistersRsp? && !c.WriteMultipleRegistersRsp?
               && !c.ReadWriteMultipleRegistersRsp?) ==> ok
    {
      match kind
      case InterfaceDefaults => DefaultAnswer(c)
      case AlwaysTrue => BaseAnswer(c)
      case Application(answer) => answer(c)
      case Holding(h) =>
        match c
        case ReadHoldingRegistersRsp(a, values) => h.Accepts(a, |values|)
        case WriteMultipleRegistersRsp(a, n) => h.Accepts(a, n)
        case ReadWriteMultipleRegistersRsp(ra, values, wa, wn) =>
          DefaultReadWrite(h.Accepts(wa, wn), h.Accepts(ra, |values|))
        case _ => DefaultAnswer(c)
    }

    /** The registers after a callback, given the registers before it. */
    ghost function Effect(c: HandlerCall, regs: seq<u16>): (r: seq<u16>)
      ensures |r| == |regs|
      ensures !kind.Holding? ==> r == regs
      ensures !c.ReadHoldingRegistersRsp? && !c.ReadWriteMultipleRegistersRsp? ==> r == regs
      ensures kind.Holding? && c.ReadHoldingRegistersRsp? ==>
                r == if kind.store.Accepts(c.address, |c.values|) then Stored(regs, c.address as nat, c.values) else regs
      ensures kind.Holding? && c.ReadWriteMultipleRegistersRsp? ==>
                r == if kind.store.Accepts(c.writeAddress, c.writeN) && kind.store.Accepts(c.readAddress, |c.readValues|)
                     then Stored(regs, c.readAddress as nat, c.readValues) else regs
    {
      match kind
      case Holding(h) =>
        (match c
         case ReadHoldingRegistersRsp(a, values) =>
           if h.Accepts(a, |values|) then Stored(regs, a as nat, values) else regs
         case ReadWriteMultipleRegistersRsp(ra, values, wa, wn) =>
           if h.Accepts(wa, wn) && h.Accepts(ra, |values|) then Stored(regs, ra as nat, values) else regs
         case _ => regs)
      case _ => regs
    }

    /** A virtual call of one IMasterHandler callback. */
    method Handle(c: HandlerCall) returns (ok: bool)
      requires Valid()
      modifies this, Store()
      ensures ok == Answer(c)
      ensures calls == old(calls) + [c]
      ensures Registers() == Effect(c, old(Registers()))
    {
      calls := calls + [c];
      match kind {
        case InterfaceDefaults =>
          ok := DefaultAnswer(c);
        case AlwaysTrue =>
          ok := BaseAnswer(c);
        case Application(answer) =>
          ok := answer(c);
        case Holding(h) =>
          match c {
            case ReadHoldingRegistersRsp(a, values) =>
              ok := h.ReadHoldingRegistersRsp(a, |values|, values);
              assert values[..|values|] == values;
            case WriteMultipleRegistersRsp(a, n) =>
              ok := h.WriteMultipleRegistersRsp(a, n);
            case ReadWriteMultipleRegistersRsp(ra, values, wa, wn) =>
              ok := h.WriteMultipleRegistersRsp(wa, wn);
              if ok {
                ok := h.ReadHoldingRegistersRsp(ra, |values|, values);
                assert values[..|values|] == values;
              }
            case _ =>
              ok := DefaultAnswer(c);
          }
      }
    }
  }

  /**
   * The combined read/write callback of the holding handler never touches the
   * registers when the write half is rejected: the read half is not called.
   */
  lemma HoldingReadWriteShortCircuits(h: MasterHandler, ra: u16, values: seq<u16>, wa: u16, wn: nat, regs: seq<u16>)
    requires h.kind.Holding? && !h.kind.store.Accepts(wa, wn)
    ensures !h.Answer(ReadWriteMultipleRegistersRsp(ra, values, wa, wn))
    ensures h.Effect(ReadWriteMultipleRegistersRsp(ra, values, wa, wn), regs) == regs
  {
  }

  /**
   * The interface's defaults and CModbusMasterHandlerBase answer every
   * callback with true, including response_time_out, exception_response and
   * the inherited combined read/write callback; neither has registers.
   */
  lemma PermissiveHandlers(h: MasterHandler, c: HandlerCall, regs: seq<u16>)
    requires h.kind == InterfaceDefaults || h.kind == AlwaysTrue
    ensures h.Answer(c) && h.Effect(c, regs) == regs && h.Store() == {}
  {
  }
}
