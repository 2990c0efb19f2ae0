/**
 The PE module: a CORDIC engine behind a TLM target socket. Six SystemC FIFOs
 (`sc_fifo`, default depth 16) connect the socket to the engine thread: the
 transport callback pushes operands onto `i_a`, `i_b`, `i_z` and pops results
 from `o_a`, `o_b`, `o_z`; the engine thread `comp` pops one operand triple,
 runs `CORDIC` in rotation mode and pushes the result triple.

 Each FIFO is an object holding a bounded sequence (head first). A blocking
 FIFO access becomes a precondition: a read needs a non-empty FIFO, a write a
 FIFO below its depth. Ghost histories record every value ever written to
 and read from each FIFO, so that the PE's invariant can state that results
 leave in the order in which their operands arrived.
 */
module Accelerator {
  import opened FixedPoint
  import opened CordicEngine
  import opened Registers
  import opened Platform

  /** The default depth of an `sc_fifo`. */
  const FIFO_DEPTH: nat := 16

  /** `sc_dt::uint64`, the type of a payload address. */
  const ADDRESS_SPAN: int := 0x1_0000_0000_0000_0000
  type Address = a: int | 0 <= a < ADDRESS_SPAN

  /** The four bytes of a `union word`. */
  type Word = w: seq<bv8> | |w| == 4 witness [0, 0, 0, 0]

  /**
   The IEEE-754 side of the socket, which this model does not interpret:
   reinterpreting the four payload bytes as a `float` and narrowing it to
   `data_t` or `angle_t`, and widening a fixed-point value to `float` and
   taking its four bytes.
   */
  datatype Conversions = Conversions(
    wordToData: Word -> Data,
    wordToAngle: Word -> Angle,
    dataToWord: Data -> Word,
    angleToWord: Angle -> Word)
  {
    /** The value a write to operand register `r` enqueues. */
    function Narrow(r: Register, w: Word): Fix16
    {
      if r == InputZ then wordToAngle(w) else wordToData(w)
    }

    /** The payload bytes a read from result register `r` returns. */
    function Widen(r: Register, v: Fix16): Word
    {
      if r == OutputZ then angleToWord(v) else dataToWord(v)
    }
  }

  /** `tlm_command`. */
  datatype Command = ReadCommand | WriteCommand | IgnoreCommand

  /** `tlm_response_status` values the transport sets (Incomplete is the initiator's initial value). */
  datatype Response = IncompleteResponse | OkResponse | GenericErrorResponse

  /** The diagnostic the transport prints for an offset no register answers to. */
  datatype Diagnostic = ReadError(offset: int) | WriteError(offset: int)

  /** What a transaction does, once its command and offset are decoded. */
  datatype Access =
    | Dequeue(reg: Register)    // a read from a result register
    | Enqueue(reg: Register)    // a write to an operand register
    | BadRead(offset: int)      // a read from any other offset
    | BadWrite(offset: int)     // a write to any other offset
    | Ignored                   // TLM_IGNORE_COMMAND

  /**
   The two address switches of `blocking_transport`: reads are answered only
   by the result registers, writes only by the operand registers.
   */
  function Classify(cmd: Command, offset: int): (a: Access)
    ensures cmd == ReadCommand ==> a.Dequeue? || a.BadRead?
    ensures cmd == WriteCommand ==> a.Enqueue? || a.BadWrite?
    ensures cmd == IgnoreCommand ==> a == Ignored
    ensures a.Dequeue? ==> cmd == ReadCommand && !a.reg.IsInput() && Offset(a.reg) == offset
    ensures a.Enqueue? ==> cmd == WriteCommand && a.reg.IsInput() && Offset(a.reg) == offset
    ensures a.BadRead? ==> a.offset == offset && forall r: Register :: !r.IsInput() ==> Offset(r) != offset
    ensures a.BadWrite? ==> a.offset == offset && forall r: Register :: r.IsInput() ==> Offset(r) != offset
  {
    match cmd
    case ReadCommand =>
      if offset == PE_OUTPUT_A_ADDR then Dequeue(OutputA)
      else if offset == PE_OUTPUT_B_ADDR then Dequeue(OutputB)
      else if offset == PE_OUTPUT_Z_ADDR then Dequeue(OutputZ)
      else BadRead(offset)
    case WriteCommand =>
      if offset == PE_INPUT_A_ADDR then Enqueue(InputA)
      else if offset == PE_INPUT_B_ADDR then Enqueue(InputB)
      else if offset == PE_INPUT_Z_ADDR then Enqueue(InputZ)
      else BadWrite(offset)
    case IgnoreCommand => Ignored
  }

  /**
   The two switches agree with the register map: an access reaches a FIFO
   exactly when the offset names a register of the kind the command serves.
   */
  lemma ClassifyByRegister(cmd: Command, offset: int)
    ensures cmd == ReadCommand ==>
              Classify(cmd, offset) == (var r := RegisterAt(offset);
                                        if r.Some? && !r.value.IsInput() then Dequeue(r.value) else BadRead(offset))
    ensures cmd == WriteCommand ==>
              Classify(cmd, offset) == (var r := RegisterAt(offset);
                                        if r.Some? && r.value.IsInput() then Enqueue(r.value) else BadWrite(offset))
  {
  }

  /** The component of a CORDIC result that result register `r` delivers. */
  function Component(o: CordicOutput, r: Register): Fix16
  {
    match r
    case OutputA => o.x
    case OutputB => o.y
    case _ => o.theta
  }

  /** A rotation engine: what `comp` computes from one operand triple. */
  type Engine = (Data, Data, Angle) -> CordicOutput

  /** The engine of the PE: `CORDIC(a, b, z, false)` with the micro-rotation angles `t`. */
  function RotationEngine(t: AngleTable): Engine
  {
    (x: Data, y: Data, theta: Angle) => Cordic(x, y, theta, t)
  }

  /** A TLM generic payload as the target sees it: the initiator's command, address and data buffer. */
  class Payload {
    const command: Command
    const address: Address
    const data: array<bv8>
    var status: Response

    constructor (command: Command, address: Address, data: array<bv8>)
      ensures this.command == command && this.address == address && this.data == data
      ensures status == IncompleteResponse
    {
      this.command := command;
      this.address := address;
      this.data := data;
      status := IncompleteResponse;
    }
  }

  /** `data.uc[i] = data_ptr[i]` for the four bytes of a word. */
  method Gather(src: array<bv8>) returns (w: Word)
    requires src.Length >= 4
    ensures w == src[..4]
  {
    w := [0, 0, 0, 0];
    for i := 0 to 4
      invariant w[..i] == src[..i]
    {
      w := w[i := src[i]];
    }
  }

  /** `data_ptr[i] = data.uc[i]` for the four bytes of a word; the rest of the buffer is untouched. */
  method Scatter(w: Word, dst: array<bv8>)
    requires dst.Length >= 4
    modifies dst
    ensures dst[..4] == w && dst[4..] == old(dst[4..])
  {
    for i := 0 to 4
      invariant dst[..i] == w[..i]
      invariant dst[4..] == old(dst[4..])
    {
      dst[i] := w[i];
    }
  }

  /**
   An `sc_fifo` of the default depth. `items` is what it holds, head first;
   `written` and `taken` record every value ever written to it and ever read
   from it.
   */
  class Fifo<T> {
    var items: seq<T>
    ghost var written: seq<T>
    ghost var taken: seq<T>

    ghost predicate Valid()
      reads this
    {
      |items| <= FIFO_DEPTH && taken + items == written
    }

    constructor ()
      ensures Valid() && items == [] && written == [] && taken == []
    {
      items, written, taken := [], [], [];
    }

    /** `read()`: blocks until the FIFO holds a value, so the caller must see one. */
    method Read() returns (x: T)
      requires Valid() && items != []
      modifies this
      ensures Valid()
      ensures x == old(items[0]) && items == old(items[1..])
      ensures taken == old(taken) + [x] && written == old(written)
    {
      x := items[0];
      assert taken + [x] + items[1..] == taken + items;
      items, taken := items[1..], taken + [x];
    }

    /** `write(x)`: blocks until the FIFO has room, so the caller must see room. */
    method Write(x: T)
      requires Valid() && |items| < FIFO_DEPTH
      modifies this
      ensures Valid()
      ensures items == old(items) + [x]
      ensures written == old(written) + [x] && taken == old(taken)
    {
      items, written := items + [x], written + [x];
    }
  }

  /** Neither the contents nor the histories of `f` changed. */
  twostate predicate Kept(f: Fifo<Fix16>)
    reads f
  {
    f.items == old(f.items) && f.written == old(f.written) && f.taken == old(f.taken)
  }

  class PE {
    const iA: Fifo<Data>
    const iB: Fifo<Data>
    const iZ: Fifo<Angle>
    const oA: Fifo<Data>
    const oB: Fifo<Data>
    const oZ: Fifo<Angle>
    /** The lines written to the diagnostic stream, in order. */
    var diagnostics: seq<Diagnostic>

    /** ANGLE0..ANGLE6. */
    const table: AngleTable
    const conv: Conversions
    const baseOffset: UInt32
    /** `CORDIC(., ., ., false)`; the constructor fixes it to `RotationEngine(table)`. */
    const engine: Engine

    /** The FIFO behind a register. */
    function Channel(r: Register): Fifo<Fix16>
    {
      match r
      case InputA => iA
      case InputB => iB
      case InputZ => iZ
      case OutputA => oA
      case OutputB => oB
      case OutputZ => oZ
    }

    /** The number of completed engine iterations. */
    ghost function Iterations(): nat
      reads iA
    {
      |iA.taken|
    }

    /** The result of the k-th operand triple the engine took. */
    ghost function Produced(k: nat): CordicOutput
      reads iA, iB, iZ
      requires k < |iA.taken| && k < |iB.taken| && k < |iZ.taken|
    {
      engine(iA.taken[k], iB.taken[k], iZ.taken[k])
    }

    ghost predicate Valid()
      reads this, iA, iB, iZ, oA, oB, oZ
    {
      && engine == RotationEngine(table)
      // six distinct FIFOs
      && iA != iB && iA != iZ && iA != oA && iA != oB && iA != oZ
      && iB != iZ && iB != oA && iB != oB && iB != oZ
      && iZ != oA && iZ != oB && iZ != oZ
      && oA != oB && oA != oZ && oB != oZ
      && iA.Valid() && iB.Valid() && iZ.Valid() && oA.Valid() && oB.Valid() && oZ.Valid()
      // the engine has taken as many operand triples as it has written result triples
      && |iB.taken| == |iA.taken| && |iZ.taken| == |iA.taken|
      && |oA.written| == |iA.taken| && |oB.written| == |iA.taken| && |oZ.written| == |iA.taken|
      // and the k-th result is the rotation of the k-th operand triple
      && (forall k :: 0 <= k < |iA.taken| ==>
            oA.written[k] == Produced(k).x && oB.written[k] == Produced(k).y && oZ.written[k] == Produced(k).theta)
    }

    constructor (table: AngleTable, conv: Conversions)
      ensures Valid() && this.table == table && this.conv == conv && baseOffset == 0
      ensures engine == RotationEngine(table) && diagnostics == []
      ensures fresh(iA) && fresh(iB) && fresh(iZ) && fresh(oA) && fresh(oB) && fresh(oZ)
      ensures iA.items == iB.items == iZ.items == [] && oA.items == oB.items == oZ.items == []
      ensures Iterations() == 0
    {
      this.table := table;
      this.conv := conv;
      engine := RotationEngine(table);
      baseOffset := 0;
      iA := new Fifo();
      iB := new Fifo();
      iZ := new Fifo();
      oA := new Fifo();
      oB := new Fifo();
      oZ := new Fifo();
      diagnostics := [];
    }

    /**
     One iteration of the engine thread: read one value from each input FIFO,
     rotate, write the three result components to the output FIFOs.
     */
    method Comp()
      requires Valid()
      requires iA.items != [] && iB.items != [] && iZ.items != []
      requires |oA.items| < FIFO_DEPTH && |oB.items| < FIFO_DEPTH && |oZ.items| < FIFO_DEPTH
      modifies iA, iB, iZ, oA, oB, oZ
      ensures Valid()
      ensures iA.items == old(iA.items[1..]) && iB.items == old(iB.items[1..]) && iZ.items == old(iZ.items[1..])
      ensures var r := Cordic(old(iA.items[0]), old(iB.items[0]), old(iZ.items[0]), table);
              && oA.items == old(oA.items) + [r.x]
              && oB.items == old(oB.items) + [r.y]
              && oZ.items == old(oZ.items) + [r.theta]
      ensures iA.taken == old(iA.taken) + [old(iA.items[0])] && iA.written == old(iA.written)
      ensures iB.taken == old(iB.taken) + [old(iB.items[0])] && iB.written == old(iB.written)
      ensures iZ.taken == old(iZ.taken) + [old(iZ.items[0])] && iZ.written == old(iZ.written)
      ensures var r := Cordic(old(iA.items[0]), old(iB.items[0]), old(iZ.items[0]), table);
              && oA.written == old(oA.written) + [r.x] && oA.taken == old(oA.taken)
              && oB.written == old(oB.written) + [r.y] && oB.taken == old(oB.taken)
              && oZ.written == old(oZ.written) + [r.theta] && oZ.taken == old(oZ.taken)
      ensures Iterations() == old(Iterations()) + 1
    {
      var inputA := iA.Read();
      var inputB := iB.Read();
      var inputZ := iZ.Read();
      var out := engine(inputA, inputB, inputZ);
      oA.Write(out.x);
      oB.Write(out.y);
      oZ.Write(out.theta);
    }

    /** `addr -= base_offset`: the register offset a payload address selects, modulo 2^64. */
    function LocalOffset(address: Address): (offset: Address)
      ensures address >= baseOffset ==> offset == address - baseOffset
      ensures address < baseOffset ==> offset == address - baseOffset + ADDRESS_SPAN
    {
      (address - baseOffset) % ADDRESS_SPAN
    }

    /** The FIFO a decoded access touches can serve it without blocking. */
    predicate Ready(a: Access)
      reads iA, iB, iZ, oA, oB, oZ
    {
      match a
      case Dequeue(r) => Channel(r).items != []
      case Enqueue(r) => |Channel(r).items| < FIFO_DEPTH
      case _ => true
    }

    /**
     The read arm of the transport: pop the result register at `offset`, or
     log an error, then copy the word into the first four bytes of `dst`.
     */
    method Fetch(offset: Address, stale: Word, dst: array<bv8>)
      requires Valid() && Ready(Classify(ReadCommand, offset)) && dst.Length >= 4
      modifies this, oA, oB, oZ, dst
      ensures Valid()
      ensures dst[4..] == old(dst[4..])
      ensures var a := Classify(ReadCommand, offset);
              forall q: Register :: (a.Dequeue? && a.reg == q) || Kept(Channel(q))
      ensures var a := Classify(ReadCommand, offset);
              a.Dequeue? ==>
                && Channel(a.reg).items == old(Channel(a.reg).items[1..])
                && dst[..4] == conv.Widen(a.reg, old(Channel(a.reg).items[0]))
                && diagnostics == old(diagnostics)
                && Channel(a.reg).taken == old(Channel(a.reg).taken) + [old(Channel(a.reg).items[0])]
                && Channel(a.reg).written == old(Channel(a.reg).written)
      ensures var a := Classify(ReadCommand, offset);
              a.BadRead? ==> dst[..4] == stale && diagnostics == old(diagnostics) + [ReadError(offset)]
    {
      var data := stale;
      if offset == PE_OUTPUT_A_ADDR {
        var v := oA.Read();
        data := conv.dataToWord(v);
      } else if offset == PE_OUTPUT_B_ADDR {
        var v := oB.Read();
        data := conv.dataToWord(v);
      } else if offset == PE_OUTPUT_Z_ADDR {
        var v := oZ.Read();
        data := conv.angleToWord(v);
      } else {
        diagnostics := diagnostics + [ReadError(offset)];
      }
      Scatter(data, dst);
    }

    /** The write switch of the transport: push onto the operand register at `offset`, or log an error. */
    method Store(offset: Address, data: Word)
      requires Valid() && Ready(Classify(WriteCommand, offset))
      modifies this, iA, iB, iZ
      ensures Valid()
      ensures var a := Classify(WriteCommand, offset);
              forall q: Register :: (a.Enqueue? && a.reg == q) || Kept(Channel(q))
      ensures var a := Classify(WriteCommand, offset);
              a.Enqueue? ==>
                && Channel(a.reg).items == old(Channel(a.reg).items) + [conv.Narrow(a.reg, data)]
                && diagnostics == old(diagnostics)
                && Channel(a.reg).written == old(Channel(a.reg).written) + [conv.Narrow(a.reg, data)]
                && Channel(a.reg).taken == old(Channel(a.reg).taken)
      ensures var a := Classify(WriteCommand, offset);
              a.BadWrite? ==> diagnostics == old(diagnostics) + [WriteError(offset)]
    {
      if offset == PE_INPUT_A_ADDR {
        iA.Write(conv.wordToData(data));
      } else if offset == PE_INPUT_B_ADDR {
        iB.Write(conv.wordToData(data));
      } else if offset == PE_INPUT_Z_ADDR {
        iZ.Write(conv.wordToAngle(data));
      } else {
        diagnostics := diagnostics + [WriteError(offset)];
      }
    }

    /**
     The transport callback. A read from a result register pops that FIFO and
     returns the value as four bytes; a read from any other offset logs an
     error and returns whatever the local `word` held (`stale`). A write to an
     operand register pushes the narrowed value of the first four payload
     bytes; a write to any other offset logs an error. Both answer OK; an
     ignore command answers with a generic error and does nothing else.
     */
    method BlockingTransport(p: Payload, stale: Word)
      requires Valid() && p.data.Length >= 4
      requires Ready(Classify(p.command, LocalOffset(p.address)))
      modifies this, iA, iB, iZ, oA, oB, oZ, p, p.data
      ensures Valid()
      ensures var a := Classify(p.command, LocalOffset(p.address));
              forall q: Register :: ((a.Dequeue? || a.Enqueue?) && a.reg == q) || Kept(Channel(q))
      ensures var a := Classify(p.command, LocalOffset(p.address));
              a.Dequeue? ==>
                && Channel(a.reg).items == old(Channel(a.reg).items[1..])
                && p.data[..4] == conv.Widen(a.reg, old(Channel(a.reg).items[0]))
                && diagnostics == old(diagnostics)
                && Channel(a.reg).taken == old(Channel(a.reg).taken) + [old(Channel(a.reg).items[0])]
                && Channel(a.reg).written == old(Channel(a.reg).written)
      ensures var a := Classify(p.command, LocalOffset(p.address));
              a.Enqueue? ==>
                && Channel(a.reg).items == old(Channel(a.reg).items) + [conv.Narrow(a.reg, old(p.data[..4]))]
                && diagnostics == old(diagnostics)
                && Channel(a.reg).written == old(Channel(a.reg).written) + [conv.Narrow(a.reg, old(p.data[..4]))]
                && Channel(a.reg).taken == old(Channel(a.reg).taken)
      ensures var a := Classify(p.command, LocalOffset(p.address));
              a.BadRead? ==> p.data[..4] == stale && diagnostics == old(diagnostics) + [ReadError(a.offset)]
      ensures var a := Classify(p.command, LocalOffset(p.address));
              a.BadWrite? ==> diagnostics == old(diagnostics) + [WriteError(a.offset)]
      ensures var a := Classify(p.command, LocalOffset(p.address));
              (a.Enqueue? || a.BadWrite? || a.Ignored?) ==> p.data[..] == old(p.data[..])
      ensures p.data[4..] == old(p.data[4..])
      ensures p.status == if p.command == IgnoreCommand then GenericErrorResponse else OkResponse
      ensures p.command == IgnoreCommand ==> diagnostics == old(diagnostics)
    {
      var addr := LocalOffset(p.address);
      match p.command {
        case ReadCommand =>
          Fetch(addr, stale, p.data);
          p.status := OkResponse;
        case WriteCommand =>
          var data := Gather(p.data);
          Store(addr, data);
          p.status := OkResponse;
        case IgnoreCommand =>
          p.status := GenericErrorResponse;
      }
    }
  }

  /**
   Results leave in the order in which their operands arrived: the value at
   the head of a result FIFO is the component, for that register, of the
   CORDIC rotation of the operand triple with the same index as the number
   of values already read from that FIFO, that is, of the k-th values ever
   written to the three operand registers.
   */
  lemma ResultOrder(pe: PE, r: Register)
    requires pe.Valid()
    requires !r.IsInput() && pe.Channel(r).items != []
    ensures var k := |pe.Channel(r).taken|;
            && k < pe.Iterations()
            && pe.Channel(r).items[0] == Component(Cordic(pe.iA.taken[k], pe.iB.taken[k], pe.iZ.taken[k], pe.table), r)
            && k < |pe.iA.written| && k < |pe.iB.written| && k < |pe.iZ.written|
            && pe.Channel(r).items[0] == Component(Cordic(pe.iA.written[k], pe.iB.written[k], pe.iZ.written[k], pe.table), r)
  {
    var k := |pe.Channel(r).taken|;
    InputsInOrder(pe.iA, k);
    InputsInOrder(pe.iB, k);
    InputsInOrder(pe.iZ, k);
    var f := pe.Channel(r);
    assert f.written[k] == f.items[0] by {
      assert f.taken + f.items == f.written;
    }
    assert k < |f.written|;
    var o := pe.Produced(k);
    assert f.written[k] == Component(o, r);
  }

  /** A FIFO hands out its values in the order they were written. */
  lemma InputsInOrder<T>(f: Fifo<T>, k: nat)
    requires f.Valid() && k < |f.taken|
    ensures k < |f.written| && f.taken[k] == f.written[k]
  {
    assert f.written == f.taken + f.items;
  }
}
