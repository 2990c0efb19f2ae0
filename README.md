# CORDIC accelerator and DCT host, modelled in Dafny

This project models the logic of a small two-core platform. Two harts compute a
2-D DCT and hand their cosine evaluations to CORDIC co-processors ("PE"s).

**The accelerator** (`tiny32-mc-acc/PE.h`, `tiny32-mc-acc/defines.h`):
- `FixedPoint` models the SystemC fixed-point types `data_t = sc_fixed<16,8>` and `angle_t = sc_fixed<16,9>`. Each is a raw 16-bit word. Every assignment truncates toward minus infinity and then wraps into 16 bits; these are SystemC's default modes. `CORDIC_output_t` is also here.
- `CordicEngine` models the CORDIC engine in rotation mode: `CORDIC_one` and `CORDIC`, which is a quadrant pre-rotation, seven micro-rotations, then gain correction.
- `Registers` models the six register offsets of the PE.
- `Accelerator` models the PE itself:
  - Six `sc_fifo`s of depth 16, each an object holding a bounded queue.
  - One iteration of the `comp` thread.
  - `blocking_transport`: address decode, enqueue/dequeue, the error diagnostic, the byte copies into and out of the payload, and the response status.
  - A blocking FIFO read or write becomes a precondition: the FIFO must be non-empty, or below depth.
  - Ghost histories make the PE's invariant state that the k-th result triple is the CORDIC of the k-th operand triple.

**The host program** (`basic-dct/main_printf.c`):
- `Platform`: `uint32_t` and `PROCESSORS`, shared with the accelerator's `unsigned int` offset.
- `HostPhase`: `phase_correction`, over reals.
- `HostSync`:
  - The semaphore words and their effects: `sem_init`, `sem_wait` (which needs a non-zero count) and `sem_post` (which wraps in `uint32_t`).
  - The barrier.
  - The zero-initialised synchronisation words and hart 0's initialisation of them, up to the first barrier.
- `HostWork`:
  - The stride split of the basis indices between the two harts.
  - The per-hart partial sums and their accumulation into a shared, zero-initialised output cell.
  - Loading the input matrix and zeroing the output matrix.
- `HostTransfer`:
  - The DMA register stores of `write_data_to_ACC` / `read_data_from_ACC`, and their `memcpy` path.
  - The 12-byte pack/unpack loops.

**Inputs taken as parameters:**
- The micro-rotation angles `ANGLE0..ANGLE6`. `angle_table.h` is not part of this model, so they are a 7-element table.
- The float↔fixed casts and the float byte reinterpretation of `union word`, as uninterpreted functions.
- The indeterminate bytes an invalid read returns.
- The file contents the host reads.
- The values of the DCT terms.

## Model

| member | source | states |
|---|---|---|
| `FixedPoint.Wrap` | tiny32-mc-acc/defines.h:4-5 | SC_WRAP: the result is the 16-bit word congruent to the exact value modulo 2^16, and equals it when it fits |
| `FixedPoint.ShiftRight` | tiny32-mc-acc/PE.h:48-49 | `v >> n` assigned to the same type never overflows: it keeps the sign and does not grow in magnitude |
| `FixedPoint.ShiftRightFloor` | tiny32-mc-acc/PE.h:48-49 | the shift is the exact quotient by 2^n truncated toward minus infinity (SC_TRN) |
| `FixedPoint.NegateExact` | tiny32-mc-acc/PE.h:60-64 | negation is exact except for the most negative word, which wraps to itself |
| `FixedPoint.AddExact` | tiny32-mc-acc/PE.h:67-69 | a sum is exact when it fits in 16 bits and congruent to the exact sum modulo 2^16 always |
| `FixedPoint.AddNegate` | tiny32-mc-acc/PE.h:60-69 | adding a negated temporary equals the wrapped difference, whichever side it is on |
| `FixedPoint.Quantize` | tiny32-mc-acc/PE.h:81 | a constant assigned to a fixed-point variable is truncated to the type's resolution |
| `FixedPoint.ValueRanges` | tiny32-mc-acc/defines.h:4-5 | a `data_t` lies in [-128, 128) with value raw/256; an `angle_t` lies in [-256, 256) with value raw/128 |
| `FixedPoint.AngleQuantizeInRange` | tiny32-mc-acc/defines.h:5 | every phase in [-180, 180] becomes an `angle_t` without overflow, within 1/128 below its value |
| `CordicEngine.NinetyExact` | tiny32-mc-acc/PE.h:98-102 | the constant 90.0 is the angle word 11520 exactly |
| `CordicEngine.FactorTruncated` | tiny32-mc-acc/PE.h:81 | the factor 0.6072776441 becomes the data word 155 (0.60546875), less than 1/256 below it |
| `CordicEngine.CordicOne` | tiny32-mc-acc/PE.h:39-74 | no contract of its own: `CordicOneCases` states what one rotation-mode micro-rotation computes, and `Rotate`/`NextTheta` give the same result in closed form |
| `CordicEngine.CordicOneCases` | tiny32-mc-acc/PE.h:48-69 | a rotation-mode micro-rotation gives, for theta0 > 0, (x0 - (y0>>i), (x0>>i) + y0, theta0 - c), and otherwise (x0 + (y0>>i), y0 - (x0>>i), theta0 + c), each wrapped |
| `CordicEngine.PreTheta` | tiny32-mc-acc/PE.h:95-103 | the pre-rotated angle is theta0 - 90 for theta0 > 0 and theta0 + 90 otherwise, and it never wraps |
| `CordicEngine.PreRotation` | tiny32-mc-acc/PE.h:94-104 | with no range check, theta0 > 0 maps (x, y) to (-y, x) and lowers the angle by 90 degrees, otherwise it maps (x, y) to (y, -x) and raises the angle by 90 degrees; the negated component is exact unless it is -128, which stays -128 |
| `CordicEngine.ScaleByFactor` | tiny32-mc-acc/PE.h:113-114 | `x * factor` is floor(x·155/256): it keeps the sign and shrinks the magnitude |
| `CordicEngine.Cordic` | tiny32-mc-acc/PE.h:76-116 | no contract of its own: `CordicIsSevenSteps` states that it is the pre-rotation, seven micro-rotations and the gain correction, and `CordicFactors` splits it into an angle part and a vector part |
| `CordicEngine.CordicIsSevenSteps` | tiny32-mc-acc/PE.h:106-115 | `CORDIC` is exactly seven micro-rotations after the pre-rotation, step i with shift i and ANGLEi, then x and y are scaled and theta is returned unscaled |
| `CordicEngine.StepsSplit` | tiny32-mc-acc/PE.h:59-69 | every branch of a micro-rotation chain tests only theta, so the chain splits into an angle part computed from theta alone and a vector part driven by the resulting directions |
| `CordicEngine.CordicFactors` | tiny32-mc-acc/PE.h:94-115 | the output angle and the seven branch directions depend only on theta0 and the table; the output vector is the pre-rotated input driven through those directions, then scaled |
| `CordicEngine.CordicThetaIndependent` | tiny32-mc-acc/PE.h:59-112 | changing x0 and y0 never changes the output angle |
| `CordicEngine.CordicOfZero` | tiny32-mc-acc/PE.h:48-114 | input x0 = y0 = 0 gives output x = y = 0 for every theta0 |
| `Registers.Offset` | tiny32-mc-acc/defines.h:13-18 | every register offset is 4-byte aligned and at most 0x14; operand registers sit below 0xc, result registers at or above it |
| `Registers.RegisterAt` | tiny32-mc-acc/defines.h:13-18 | an offset selects the register at that offset, or none when no register sits there |
| `Registers.OffsetsDistinct` | tiny32-mc-acc/defines.h:13-18 | the six offsets are pairwise distinct |
| `Registers.InputsBelowOutputs` | tiny32-mc-acc/defines.h:13-18 | each operand offset lies below each result offset |
| `Accelerator.Classify` | tiny32-mc-acc/PE.h:159-207 | reads are answered only by result registers and writes only by operand registers, at their own offsets; any other offset is a bad read or bad write; an ignore command does nothing |
| `Accelerator.ClassifyByRegister` | tiny32-mc-acc/PE.h:159-207 | the read switch dequeues exactly when the offset names a result register and the write switch enqueues exactly when it names an operand register; every other offset is a bad access |
| `Accelerator.Gather` | tiny32-mc-acc/PE.h:183-185 | the local word receives the first four payload bytes |
| `Accelerator.Scatter` | tiny32-mc-acc/PE.h:177-179 | the first four payload bytes receive the word; the rest of the buffer is untouched |
| `Accelerator.Fifo.constructor` | tiny32-mc-acc/PE.h:20-25 | a FIFO starts empty |
| `Accelerator.Fifo.Read` | tiny32-mc-acc/PE.h:129-131 | a read of a non-empty FIFO returns and removes its head and records it as read |
| `Accelerator.Fifo.Write` | tiny32-mc-acc/PE.h:140-142 | a write to a FIFO below depth 16 appends the value and records it as written |
| `Accelerator.PE.constructor` | tiny32-mc-acc/PE.h:29-32 | a new PE has six distinct empty FIFOs, base offset 0 and the rotation-mode CORDIC as its engine |
| `Accelerator.PE.Comp` | tiny32-mc-acc/PE.h:118-145 | one iteration removes exactly the head of each operand FIFO, appends the x, y and theta of their CORDIC to the three result FIFOs, records the three operands as the next ones read and the three results as the next ones written, and keeps the PE invariant (the k-th results are the CORDIC of the k-th operands) |
| `Accelerator.PE.LocalOffset` | tiny32-mc-acc/PE.h:152-155 | the register offset is the address minus the base offset, modulo 2^64 |
| `Accelerator.PE.Fetch` | tiny32-mc-acc/PE.h:160-179 | a read at 0xc, 0x10 or 0x14 dequeues exactly one value from `o_a`, `o_b` or `o_z`, records it as the next value read from that FIFO, and copies it widened into the first four payload bytes; at any other offset no FIFO or history changes, a read error is logged and the stale word is copied; the rest of the payload is untouched |
| `Accelerator.PE.Store` | tiny32-mc-acc/PE.h:186-200 | a write at 0x0, 0x4 or 0x8 enqueues exactly one narrowed value on `i_a`, `i_b` or `i_z` and records it as the next value written to that FIFO; at any other offset no FIFO or history changes and a write error is logged |
| `Accelerator.PE.BlockingTransport` | tiny32-mc-acc/PE.h:147-210 | the decoded access changes only its own FIFO, its history and the payload's first four bytes as above; read and write always answer OK, even at a bad offset; an ignore command answers with a generic error and changes nothing else |
| `Accelerator.ResultOrder` | tiny32-mc-acc/PE.h:118-145 | FIFO order is preserved: the head of a result FIFO, after n values were read from it, is that component of the CORDIC of the n-th operand triple taken by the engine, which is the n-th triple ever written to the operand registers |
| `Accelerator.InputsInOrder` | tiny32-mc-acc/PE.h:20-25 | a FIFO hands out its values in the order they were written: the k-th value read is the k-th value written |
| `HostPhase.PhaseCorrection` | basic-dct/main_printf.c:129-134 | the two folding loops return the folded phase, which lies in [-180, 180] |
| `HostPhase.PhaseFoldRange` | basic-dct/main_printf.c:131-132 | the fold lies in [-180, 180]; from above it lands in (-180, 180] and from below in [-180, 180), so -180 is kept |
| `HostPhase.PhaseFoldCongruent` | basic-dct/main_printf.c:131-132 | the result differs from the input by a whole number of turns of 360 |
| `HostPhase.PhaseFoldFixed` | basic-dct/main_printf.c:129-134 | an input already in [-180, 180] is returned unchanged |
| `HostPhase.PhaseFoldIdempotent` | basic-dct/main_printf.c:129-134 | folding an already folded phase changes nothing |
| `HostPhase.SameFold` | basic-dct/main_printf.c:131-132 | a value congruent to the input and in the window the fold lands in for that input is the fold |
| `HostSync.Post` | basic-dct/main_printf.c:66-80 | a post adds 1 to the count, and wraps to 0 from 2^32 - 1 |
| `HostSync.Wait` | basic-dct/main_printf.c:49-64 | a completed wait on a non-zero count lowers it, and a post undoes it |
| `HostSync.PostsAdd` | basic-dct/main_printf.c:66-80 | without wrap-around, n posts add exactly n |
| `HostSync.WaitsSubtract` | basic-dct/main_printf.c:49-64 | n completed waits subtract exactly n and never underflow |
| `HostSync.PostsThenWaits` | basic-dct/main_printf.c:43-80 | n posts followed by n waits restore the initial count |
| `HostSync.SemInit` | basic-dct/main_printf.c:43-47 | `sem_init` sets the count |
| `HostSync.SemWait` | basic-dct/main_printf.c:49-64 | `sem_wait` completes only on a non-zero count and decrements it by one |
| `HostSync.SemPost` | basic-dct/main_printf.c:66-80 | `sem_post` increments the count by one, modulo 2^32 |
| `HostSync.PostMany` | basic-dct/main_printf.c:87 | the release loop posts the semaphore exactly `thread_count - 1` times |
| `HostSync.BarrierArrive` | basic-dct/main_printf.c:82-94 | the last arrival resets the counter, leaves the lock as found and posts the release semaphore `thread_count - 1` times; any other arrival increments the counter, restores the lock and still owes a wait; counter < thread_count is preserved |
| `HostSync.BarrierRound` | basic-dct/main_printf.c:82-94 | with two harts the first arrival must wait, and the release semaphore is 0 when it starts waiting, so it cannot pass before the second arrives; the second arrival does not wait; afterwards lock, semaphore and counter are back at 1, 0, 0 |
| `HostSync.SyncState.constructor` | basic-dct/main_printf.c:140-146 | the synchronisation words (barrier counter, barrier lock, release semaphore, mutex and both print semaphores) are pairwise distinct and all start at 0, as zero-initialised globals |
| `HostSync.SyncState.Init` | basic-dct/main_printf.c:159-168 | hart 0 opens the barrier lock and the mutex with 1 and closes the release semaphore and both print semaphores with 0 |
| `HostSync.StartUp` | basic-dct/main_printf.c:140-248 | from the zero-initialised globals and hart 0's set-up, the first barrier is entered in the state it needs: the first arrival waits on a closed semaphore, and afterwards the words are distinct, the mutex is open and the barrier is ready again |
| `HostWork.StridePartition` | basic-dct/main_printf.c:138-210 | the two harts' index sets are disjoint and together are exactly 0..m-1 |
| `HostWork.StrideIndices` | basic-dct/main_printf.c:210 | the stride loop visits hart, hart + 2, ... in order, exactly the indices below m of the hart's parity |
| `HostWork.StrideSumSplit` | basic-dct/main_printf.c:207-240 | the two harts' partial sums add up to the whole sum |
| `HostWork.LocalSum` | basic-dct/main_printf.c:209-231 | `local_sum` is the sum of the terms at the hart's stride indices |
| `HostWork.LoadMatrices` | basic-dct/main_printf.c:181-192 | the input matrix holds the values read and every output cell is 0 before computation starts |
| `HostWork.AccumulateCell` | basic-dct/main_printf.c:233-240 | after both harts scale their partial sums by the column's factor and add them, a cell has gained the scaled whole sum of its terms; no other cell changes |
| `HostTransfer.LatchedOther` | basic-dct/main_printf.c:100-103 | stores to other registers do not change the value a register last received |
| `HostTransfer.DmaProgramLatches` | basic-dct/main_printf.c:100-119 | the operation register is written last, with MEMCPY, and at that moment the source, destination and length registers hold the copy's parameters |
| `HostTransfer.Host.MemCopy` | basic-dct/main_printf.c:109 | the first len bytes of the destination equal the source's; nothing else changes |
| `HostTransfer.Host.WriteDataToAcc` | basic-dct/main_printf.c:96-111 | with DMA, it stores SRC = buffer, DST = ADDR, LEN = len, then OP = MEMCPY, in that order; without DMA, the accelerator's first len bytes become the buffer's |
| `HostTransfer.Host.ReadDataFromAcc` | basic-dct/main_printf.c:112-127 | the same store sequence with source and destination swapped; without DMA, the buffer's first len bytes become the accelerator's |
| `HostTransfer.Pack` | basic-dct/main_printf.c:219 | all 12 bytes of the pack union are copied into the buffer |
| `HostTransfer.Unpack` | basic-dct/main_printf.c:230 | all 12 bytes of the buffer are copied back into the pack union |
| `HostTransfer.PackRoundTrip` | basic-dct/main_printf.c:219-230 | packing then unpacking is the identity on the 12 bytes |

## Left out

- StartUp: leaves out the steps between hart 0's set-up and the first barrier (file reading, the print-semaphore hand-over, the summation under the mutex). They use only the mutex and the print semaphores, each wait matched by a post, and never touch the barrier's three words.
- Vectoring mode of `CORDIC_one` / `CORDIC` is not modelled. `comp` always passes `false` (tiny32-mc-acc/PE.h:134), so it is unreachable. Its first branch also tests the uninitialised local `y` (tiny32-mc-acc/PE.h:51) where `y_0` was evidently meant.
- The values of `ANGLE0..ANGLE6`: `angle_table.h` is not part of this model, so the table is a parameter.
- The float↔fixed casts of `blocking_transport` and the float byte layout of `union word` are uninterpreted functions supplied with the PE (`Conversions`).
- Host floats are reals, and the host's float computations are given, not computed:
  - each term `input_memory[i][k] * data.f[0]` (the phase formula, the cosine the accelerator returns and the product) is a given real in `terms` (basic-dct/main_printf.c:217-231);
  - the column factor `1/sqrt(m)` or `sqrt(2/m)` is the given real `scale` of `AccumulateCell` (basic-dct/main_printf.c:233-234);
  - float rounding of the sums is not modelled;
  - `Pack`/`Unpack` copy the 12 bytes of `union pack` without interpreting them as floats.
- No accuracy bound is stated for the CORDIC result: that x and y approximate cos and sin of the angle within about 2^-8 over (-180, 180] is not proved, because the angle table is a parameter and the model has no cosine over reals.
- `phase_correction` is modelled over reals, not 32-bit floats.
- Concurrency is not modelled:
  - the LR/SC retry loops;
  - interleavings between the harts;
  - the mutex brackets around accelerator access;
  - the print-ordering rendezvous (basic-dct/main_printf.c:198-199, 250-254).
  Each semaphore operation is one sequential step, and a wait that would block is a precondition. `BarrierRound` fixes the one two-hart interleaving of the barrier that completes.
- `comp` runs forever and `blocking_transport` starts with `wait(delay)`. Only one iteration of `comp` is modelled, and SystemC time is not.
- The transaction's data length and byte enables are ignored, as the source ignores them.
- `tlm_command` has exactly three values, so the transport's `default:` branch cannot be expressed separately. It answers like the ignore command.
- The text of the error diagnostics is reduced to a log entry holding the offending offset.
- An invalid read returns whatever the uninitialised local word holds. It is given as a parameter, `stale`.
- File I/O, `malloc`/`free`, `printf`/`fprintf` and the final output file are not modelled. `LoadMatrices` takes the values read as a parameter.
- The DMA controller is not modelled. `dma.h` is not part of this model, so a DMA transfer is only the record of the register stores that start it; the host never reads the status register.
- `tiny32-mc-acc/mc_main.cpp` (platform wiring) is not part of this model.
- Where the phase lands: one could expect a result in (-180, 180]. The code keeps -180 for inputs below -180 that are congruent to 180. The model follows the code (`HostPhase.PhaseFoldRange`).
