# CHIP-8 interpreter core in Dafny

A verified model of the core of a small C# CHIP-8 emulator: the instruction
word decoder (`OpCode`) and the `CPU` with its 4096-byte memory, sixteen
8-bit V registers, 16-bit program counter, return-address stack and 64 x 32
framebuffer, together with the handlers for 00E0, 00EE, 1NNN, 2NNN, 3XKK,
4XKK, 5XY0, 6XKK, 7XKK and 8XY0 to 8XY7, font loading, ROM loading and
instruction fetch.

Files and modules:

- `opcode.dfy`, module `OpCodes`: the decoder as a datatype over a 16-bit
  word with the field extractors NNN, NN, N, X, Y and Nibble, and lemmas
  that the fields nest, recompose the word and determine it.
- `instructions.dfy`, module `Instructions`: what the skip and register
  handlers do to the register file (`Registers`, sixteen bytes) and the program counter, as
  functions on values; the flag computations of 8XY4 and 8XY5; the
  byte-by-byte memory copy `CopyInto` that both loaders perform; and the
  lemmas about them (carry and borrow laws, flag aliasing, shift inverse).
- `chip8.dfy`, module `Chip8`: class `CPU`, whose arrays and fields are
  updated in place. The skip and register handlers (3XKK to 8XY7) are
  proved to produce exactly the state given by the matching function or
  predicate in `Instructions`; the loaders are proved equal to `CopyInto`;
  00E0, 00EE, 1NNN and 2NNN state their new state directly. Every handler
  also states that the rest of the state is left alone.

Bytes are `bv8`, the C# `ushort` is `bv16` and a framebuffer cell (`uint`)
is `bv32`, so 8-bit and 16-bit wrap-around are those of the types; the
contracts restate the wrap-around in a wider bit-vector (for example
`r[x] as bv16 == (v[x] as bv16 + kk as bv16) % 0x100`). The return-address
stack is a sequence whose last element is its top. Where the C# code would
throw (an array index past the end of memory, `Stack.Pop` on an empty
stack) the model returns an error result (`ok == false`, `None`) instead
of requiring the caller to avoid it.

The model follows the code as written wherever it departs from the usual
CHIP-8 instruction set, and the contracts and lemmas make each departure
explicit:

- 8XY4 sets VF when VX + VY > 0xFF - 1, so a sum of exactly 0xFF reports a
  carry (`AddRegistersCarry`).
- 8XY5 sets VF only when VX > VY strictly, so VX == VY reports a borrow
  (`SubRegistersBorrow`).
- 8XY4 and 8XY5 write VF before computing the result, so with Y = F the new
  flag is an operand and with X = F the result overwrites the flag
  (`FlagAsOperand`, `FlagOverwritten`).
- 8XY7 is the same code as 8XY6, a right shift; both methods are specified
  by the one function `ShiftRight`.
- 00EE pops the stack and discards the address; the program counter is
  not changed.
- `GetNextInstruction` reads the word at the given address and does not
  advance the program counter; nothing in the CPU advances it after a
  fetch.
- The stack has no depth limit: `new Stack<ushort>(16)` only sets an
  initial capacity, so 2NNN never overflows.

## Model

| member | source | states |
|---|---|---|
| `OpCodes.OpCode.NNN` | Chip8/OpCode.cs:9 | NNN is the word modulo 0x1000, so always below 0x1000 |
| `OpCodes.OpCode.NN` | Chip8/OpCode.cs:12 | NN is the word modulo 0x100 (the low byte) |
| `OpCodes.OpCode.N` | Chip8/OpCode.cs:15 | N is the word modulo 0x10, always below 16 |
| `OpCodes.OpCode.X` | Chip8/OpCode.cs:18 | X is bits 8 to 11 (word / 0x100 mod 0x10), always below 16 |
| `OpCodes.OpCode.Y` | Chip8/OpCode.cs:21 | Y is bits 4 to 7 (word / 0x10 mod 0x10), always below 16 |
| `OpCodes.OpCode.Nibble` | Chip8/OpCode.cs:23 | the top nibble is left in place: a multiple of 0x1000, the word minus its low 12 bits |
| `OpCodes.Recompose` | Chip8/OpCode.cs:9-23 | word == Nibble + X * 0x100 + Y * 0x10 + N |
| `OpCodes.Nesting` | Chip8/OpCode.cs:9-21 | NN == Y * 0x10 + N and NNN == X * 0x100 + NN |
| `OpCodes.FieldsDetermineWord` | Chip8/OpCode.cs:6-26 | two decoders with equal Nibble, X, Y and N were built from the same word |
| `Instructions.RegX` | Chip8/CPU.cs:50 | the X field of any word is a valid V-register index (below 16) |
| `Instructions.RegY` | Chip8/CPU.cs:69 | the Y field of any word is a valid V-register index (below 16) |
| `Instructions.PackBigEndian` | Chip8/CPU.cs:30 | hi shifted left by 8 and OR-ed with lo equals hi * 256 + lo, and dividing by 256 gives back hi and lo |
| `Instructions.Advance` | Chip8/CPU.cs:52 | a skip adds 2 to the program counter modulo 0x10000; no skip leaves it unchanged |
| `Instructions.ExactlyOneImmediateSkip` | Chip8/CPU.cs:48-62 | for the same registers and operands exactly one of 3XKK and 4XKK skips, so exactly one moves the program counter |
| `Instructions.LoadImmediate` | Chip8/CPU.cs:76-80 | 6XKK: VX becomes kk and no other register (VF included, unless X is F) changes |
| `Instructions.AddImmediate` | Chip8/CPU.cs:84-88 | 7XKK: VX becomes (VX + kk) mod 256, no flag is written, no other register changes |
| `Instructions.CopyRegister` | Chip8/CPU.cs:92-98 | 8XY0: VX becomes VY, no other register changes |
| `Instructions.OrRegisters` | Chip8/CPU.cs:102-108 | 8XY1: only VX changes |
| `Instructions.AndRegisters` | Chip8/CPU.cs:112-119 | 8XY2: only VX changes |
| `Instructions.OrAndRegistersBits` | Chip8/CPU.cs:102-119 | after 8XY1 a bit of VX is set iff it was set in VX or VY; after 8XY2 iff it was set in both |
| `Instructions.XorRegisters` | Chip8/CPU.cs:123-130 | 8XY3: XOR-ing the old VY into the new VX gives back the old VX; only VX changes |
| `Instructions.CarryFlag` | Chip8/CPU.cs:140-143 | the 8XY4 flag is the carry out of the 9-bit sum VX + VY, except that a sum of exactly 0xFF (no carry) also gives 1 |
| `Instructions.NoBorrowFlag` | Chip8/CPU.cs:156-159 | for unequal operands the 8XY5 flag is the NOT-borrow of the 9-bit subtraction VX + 0x100 - VY; for equal operands it is 0, where a true NOT-borrow would be 1 |
| `Instructions.AddRegisters` | Chip8/CPU.cs:134-146 | 8XY4: only VX and VF change; for X not F, VF is the carry flag of the old VX and VY |
| `Instructions.SubRegisters` | Chip8/CPU.cs:150-162 | 8XY5: only VX and VF change; for X not F, VF is the no-borrow flag of the old VX and VY |
| `Instructions.ShiftRight` | Chip8/CPU.cs:166-188 | 8XY6 and 8XY7: only VX and VF change; for X not F, VF is old VX mod 2 and VX is old VX / 2; for X = F, VF ends 0 |
| `Instructions.AddRegistersCarry` | Chip8/CPU.cs:134-146 | away from VF, VX becomes (VX + VY) mod 256 and VX + 256 * VF equals the sum, except at a sum of 0xFF, where VF is 1 and VX is 0xFF |
| `Instructions.SubRegistersBorrow` | Chip8/CPU.cs:150-162 | away from VF, VX becomes (VX - VY) mod 256 and VX + VY == old VX + 256 * (1 - VF) unless VX == VY, where VX and VF both become 0 |
| `Instructions.FlagAsOperand` | Chip8/CPU.cs:134-162 | with Y = F, 8XY4 and 8XY5 add or subtract the flag they just wrote, not the old VF |
| `Instructions.FlagOverwritten` | Chip8/CPU.cs:134-162 | with X = F, the final VF of 8XY4 and 8XY5 is the result computed from the freshly written flag |
| `Instructions.ShiftRightInverse` | Chip8/CPU.cs:166-175 | away from VF, 2 * new VX + new VF == old VX |
| `Instructions.LoadThenAddZero` | Chip8/CPU.cs:76-88 | 6XKK followed by 7X00 on the same register leaves kk in it |
| `Instructions.CopyInto` | Chip8/CPU.cs:192-210 | writing data from address at leaves the length, puts data[i] at at + i and leaves every other cell unchanged |
| `Chip8.CPU.constructor` | Chip8/CPU.cs:17-21 | PC is 0x200, the stack is empty, registers and framebuffer are 0, RAM[0x50 + i] is glyph byte i and all other memory is 0 |
| `Chip8.CPU.LoadFontSet` | Chip8/CPU.cs:192-198 | memory afterwards is the old memory with the glyph table copied in from 0x50 |
| `Chip8.CPU.LoadROM` | Chip8/CPU.cs:204-210 | succeeds iff the program is at most 4096 - 0x200 bytes; memory afterwards has the program (or, on the fault, its first 4096 - 0x200 bytes) copied in from 0x200 and is otherwise unchanged |
| `Chip8.CPU.GetNextInstruction` | Chip8/CPU.cs:30 | defined iff pc + 1 < 4096; the word is RAM[pc] * 256 + RAM[pc + 1], and its high and low bytes are those two cells; nothing is modified |
| `Chip8.CPU.Op00E0` | Chip8/CPU.cs:25 | every one of the 64 x 32 framebuffer cells becomes 0; PC, stack, registers and memory are unchanged |
| `Chip8.CPU.Op00EE` | Chip8/CPU.cs:26 | fails iff the stack is empty; otherwise removes the top entry; PC is unchanged in both cases |
| `Chip8.CPU.Op1NNN` | Chip8/CPU.cs:33-36 | PC becomes NNN, below 0x1000; stack, registers and memory unchanged |
| `Chip8.CPU.Op2NNN` | Chip8/CPU.cs:39-44 | the old PC is pushed (stack grows by exactly one, old PC on top), then PC becomes NNN |
| `Chip8.CPU.Op3XKK` | Chip8/CPU.cs:48-53 | PC becomes `Advance(PC, SkipIfEqualImmediate(V, X, kk))`: it advances by 2 (mod 0x10000) iff VX == kk; registers, stack and memory unchanged |
| `Chip8.CPU.Op4XKK` | Chip8/CPU.cs:57-62 | PC becomes `Advance(PC, SkipIfNotEqualImmediate(V, X, kk))`: it advances by 2 (mod 0x10000) iff VX != kk; registers, stack and memory unchanged |
| `Chip8.CPU.Op5XY0` | Chip8/CPU.cs:66-72 | PC becomes `Advance(PC, SkipIfEqualRegisters(V, X, Y))`: it advances by 2 (mod 0x10000) iff VX == VY, the low nibble ignored; registers, stack and memory unchanged |
| `Chip8.CPU.Op6XKK` | Chip8/CPU.cs:76-80 | the registers become `LoadImmediate` of the old ones; PC, stack and memory unchanged |
| `Chip8.CPU.Op7XKK` | Chip8/CPU.cs:84-88 | the registers become `AddImmediate` of the old ones; PC, stack and memory unchanged |
| `Chip8.CPU.Op8XY0` | Chip8/CPU.cs:92-98 | the registers become `CopyRegister` of the old ones; PC, stack and memory unchanged |
| `Chip8.CPU.Op8XY1` | Chip8/CPU.cs:102-108 | the registers become `OrRegisters` of the old ones; PC, stack and memory unchanged |
| `Chip8.CPU.Op8XY2` | Chip8/CPU.cs:112-119 | the registers become `AndRegisters` of the old ones; PC, stack and memory unchanged |
| `Chip8.CPU.Op8XY3` | Chip8/CPU.cs:123-130 | the registers become `XorRegisters` of the old ones; PC, stack and memory unchanged |
| `Chip8.CPU.Op8XY4` | Chip8/CPU.cs:134-146 | the registers become `AddRegisters` of the old ones (flag first, then sum); PC, stack and memory unchanged |
| `Chip8.CPU.Op8XY5` | Chip8/CPU.cs:150-162 | the registers become `SubRegisters` of the old ones (flag first, then difference); PC, stack and memory unchanged |
| `Chip8.CPU.Op8XY6` | Chip8/CPU.cs:166-175 | the registers become `ShiftRight` of the old ones; PC, stack and memory unchanged |
| `Chip8.CPU.Op8XY7` | Chip8/CPU.cs:179-188 | the registers become `ShiftRight` of the old ones, exactly as 8XY6; PC, stack and memory unchanged |

## Left out

- The delay and sound timers and the index register `I` (Chip8/CPU.cs:7-10): declared but not used by any code of the CPU, so they are not fields of the model.
- Opcodes ANNN, BNNN, CXKK, DXYN, EX9E, EXA1 and the FX group, the keypad and a cycle driver (`EmulateCycle`): the CPU has no code for them.
- `Fonts.Sprites`: its definition is not part of this model; the glyph table is the constructor's parameter `sprites`, of any length that fits from 0x50 to the end of memory.
- The `Dictionary<ushort, Action>` handler table: its two entries are the methods `Op00E0` and `Op00EE`; lookup of unknown keys is not modelled.
- The static `Video` array: modelled as a field of the one CPU; sharing between instances is not captured.
- Exceptions are error results: the model says which calls fault and what state they leave, not how the exception propagates.
- SDL window, rendering, input, file reading, frame pacing and the main loop (Chip8/SdlManager.cs, Chip8/Program.cs): platform I/O outside the core.
