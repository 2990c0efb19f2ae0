/**
 The PE's inner transport address map: six 4-byte registers, three operand
 registers the host writes (A, B, angle Z) and three result registers it
 reads, at fixed offsets from the PE's base address.
 */
module Registers {
  import opened Wrappers

  const PE_INPUT_A_ADDR: int := 0x00
  const PE_INPUT_B_ADDR: int := 0x04
  const PE_INPUT_Z_ADDR: int := 0x08
  const PE_OUTPUT_A_ADDR: int := 0x0c
  const PE_OUTPUT_B_ADDR: int := 0x10
  const PE_OUTPUT_Z_ADDR: int := 0x14

  datatype Register = InputA | InputB | InputZ | OutputA | OutputB | OutputZ
  {
    /** Operand registers are the write targets; result registers are the read targets. */
    predicate IsInput() { this == InputA || this == InputB || this == InputZ }
  }

  /** The offset of a register within the PE's address window. */
  function Offset(r: Register): (a: int)
    ensures 0 <= a <= 0x14 && a % 4 == 0
    ensures r.IsInput() <==> a < PE_OUTPUT_A_ADDR
  {
    match r
    case InputA => PE_INPUT_A_ADDR
    case InputB => PE_INPUT_B_ADDR
    case InputZ => PE_INPUT_Z_ADDR
    case OutputA => PE_OUTPUT_A_ADDR
    case OutputB => PE_OUTPUT_B_ADDR
    case OutputZ => PE_OUTPUT_Z_ADDR
  }

  /** The register an offset selects, if any: the case labels of the transport's address switches. */
  function RegisterAt(offset: int): (r: Option<Register>)
    ensures r.Some? ==> Offset(r.value) == offset
    ensures r.None? ==> forall reg: Register :: Offset(reg) != offset
  {
    if offset == PE_INPUT_A_ADDR then Some(InputA)
    else if offset == PE_INPUT_B_ADDR then Some(InputB)
    else if offset == PE_INPUT_Z_ADDR then Some(InputZ)
    else if offset == PE_OUTPUT_A_ADDR then Some(OutputA)
    else if offset == PE_OUTPUT_B_ADDR then Some(OutputB)
    else if offset == PE_OUTPUT_Z_ADDR then Some(OutputZ)
    else None
  }

  /** The six offsets are pairwise distinct, so decoding an offset recovers its register. */
  lemma OffsetsDistinct(r1: Register, r2: Register)
    ensures Offset(r1) == Offset(r2) ==> r1 == r2
    ensures RegisterAt(Offset(r1)) == Some(r1)
  {
  }

  /** Every operand offset lies below every result offset. */
  lemma InputsBelowOutputs(i: Register, o: Register)
    requires i.IsInput() && !o.IsInput()
    ensures Offset(i) < Offset(o)
  {
  }
}
