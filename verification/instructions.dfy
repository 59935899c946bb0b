/** What the CHIP-8 instruction handlers do to the register file and to the
    program counter, and how the loaders fill memory, as functions on values.
    The CPU class in chip8.dfy is proved against these functions. */
module Instructions {
  import opened OpCodes

  datatype Option<T> = None | Some(value: T)

  /** Size of the memory image in bytes. */
  const MemorySize: nat := 4096

  /** Number of general-purpose V registers. */
  const RegisterCount: nat := 16

  /** Index of the flag register VF. */
  const VF: nat := 0xF

  /** Where programs are loaded and where the program counter starts. */
  const StartAddress: Word := 0x200

  /** Where the font glyphs are written. */
  const FontAddress: nat := 0x50

  /** The sixteen 8-bit V registers, V0 to VF. */
  type Registers = v: seq<Byte> | |v| == RegisterCount witness seq(RegisterCount, _ => 0)

  /** A valid V-register index. */
  type RegIndex = i: nat | i < RegisterCount

  /** Register index X of an instruction word: always a valid index. */
  function RegX(w: Word): (i: RegIndex)
    ensures i as Word == w / 0x100 % 0x10
  {
    OpCode(w).X() as nat
  }

  /** Register index Y of an instruction word: always a valid index. */
  function RegY(w: Word): (i: RegIndex)
    ensures i as Word == w / 0x10 % 0x10
  {
    OpCode(w).Y() as nat
  }

  /** r differs from v at most in the registers i and j. */
  predicate OnlyChanged(v: Registers, r: Registers, i: nat, j: nat)
  {
    forall k :: 0 <= k < RegisterCount && k != i && k != j ==> r[k] == v[k]
  }

  /** Bit k of b is set. */
  predicate Bit(b: Byte, k: nat)
    requires k < 8
  {
    (b >> k) & 1 == 1
  }

  /** Byte addition wraps modulo 256. */
  lemma WrapAdd(a: Byte, b: Byte)
    ensures (a + b) as bv16 == (a as bv16 + b as bv16) % 0x100
  {
  }

  /** Two bytes packed high byte first, by shift-and-OR: the word is
      hi * 256 + lo, and dividing it back gives the two bytes. */
  function PackBigEndian(hi: Byte, lo: Byte): (w: Word)
    ensures w == hi as Word * 0x100 + lo as Word
    ensures w / 0x100 == hi as Word && w % 0x100 == lo as Word
  {
    ((hi as Word) << 8) | (lo as Word)
  }

  // ---------------------------------------------------------------------
  // Conditional skips (3XKK, 4XKK, 5XY0)

  /** The program counter after a skip instruction: 2 more (16-bit
      wrap-around, as `PC += 2` on a ushort) when it skips, unchanged
      otherwise. */
  function Advance(pc: Word, skip: bool): (r: Word)
    ensures skip ==> r as bv32 == (pc as bv32 + 2) % 0x1_0000
    ensures !skip ==> r == pc
  {
    if skip then pc + 2 else pc
  }

  /** 3XKK skips when VX equals the immediate byte kk. */
  predicate SkipIfEqualImmediate(v: Registers, x: RegIndex, kk: Byte)
  {
    v[x] == kk
  }

  /** 4XKK skips when VX differs from the immediate byte kk. */
  predicate SkipIfNotEqualImmediate(v: Registers, x: RegIndex, kk: Byte)
  {
    v[x] != kk
  }

  /** 5XY0 skips when VX equals VY; the low nibble is not looked at. */
  predicate SkipIfEqualRegisters(v: Registers, x: RegIndex, y: RegIndex)
  {
    v[x] == v[y]
  }

  /** For one register file and operands, exactly one of 3XKK and 4XKK
      skips; so exactly one of them moves the program counter. */
  lemma ExactlyOneImmediateSkip(v: Registers, x: RegIndex, kk: Byte, pc: Word)
    ensures SkipIfEqualImmediate(v, x, kk) != SkipIfNotEqualImmediate(v, x, kk)
    ensures (Advance(pc, SkipIfEqualImmediate(v, x, kk)) == pc)
        != (Advance(pc, SkipIfNotEqualImmediate(v, x, kk)) == pc)
  {
    var p := pc as bv32;
    assert (p + 2) % 0x1_0000 != p;
  }

  // ---------------------------------------------------------------------
  // Register loads and bitwise operations (6XKK, 7XKK, 8XY0 to 8XY3)

  /** 6XKK: VX := kk. */
  function LoadImmediate(v: Registers, x: RegIndex, kk: Byte): (r: Registers)
    ensures r[x] == kk
    ensures OnlyChanged(v, r, x, x)
  {
    v[x := kk]
  }

  /** 7XKK: VX := VX + kk modulo 256; no flag is written. */
  function AddImmediate(v: Registers, x: RegIndex, kk: Byte): (r: Registers)
    ensures r[x] as bv16 == (v[x] as bv16 + kk as bv16) % 0x100
    ensures OnlyChanged(v, r, x, x)
  {
    WrapAdd(v[x], kk);
    v[x := v[x] + kk]
  }

  /** 8XY0: VX := VY. */
  function CopyRegister(v: Registers, x: RegIndex, y: RegIndex): (r: Registers)
    ensures r[x] == v[y]
    ensures OnlyChanged(v, r, x, x)
  {
    v[x := v[y]]
  }

  /** 8XY1: VX := VX OR VY. */
  function OrRegisters(v: Registers, x: RegIndex, y: RegIndex): (r: Registers)
    ensures OnlyChanged(v, r, x, x)
  {
    v[x := v[x] | v[y]]
  }

  /** 8XY2: VX := VX AND VY. */
  function AndRegisters(v: Registers, x: RegIndex, y: RegIndex): (r: Registers)
    ensures OnlyChanged(v, r, x, x)
  {
    v[x := v[x] & v[y]]
  }

  /** A bit of VX is set after 8XY1 exactly when it was set in VX or in VY,
      and after 8XY2 exactly when it was set in both. */
  lemma OrAndRegistersBits(v: Registers, x: RegIndex, y: RegIndex, k: nat)
    requires k < 8
    ensures Bit(OrRegisters(v, x, y)[x], k) == (Bit(v[x], k) || Bit(v[y], k))
    ensures Bit(AndRegisters(v, x, y)[x], k) == (Bit(v[x], k) && Bit(v[y], k))
  {
  }

  /** 8XY3: VX := VX XOR VY; XOR-ing the old VY in again restores the old VX. */
  function XorRegisters(v: Registers, x: RegIndex, y: RegIndex): (r: Registers)
    ensures r[x] ^ v[y] == v[x]
    ensures OnlyChanged(v, r, x, x)
  {
    v[x := v[x] ^ v[y]]
  }

  // ---------------------------------------------------------------------
  // Arithmetic with a flag (8XY4, 8XY5) and the shift (8XY6, 8XY7)

  /** The value 8XY4 writes to VF: the carry out of the 9-bit sum of its
      operands, except that a sum of exactly 0xFF (no carry) also gives 1,
      because the test is `> 0xFF - 1`. */
  function CarryFlag(a: Byte, b: Byte): (f: Byte)
    ensures a as bv16 + b as bv16 != 0xFF ==> f as bv16 == (a as bv16 + b as bv16) / 0x100
    ensures a as bv16 + b as bv16 == 0xFF ==> f == 1
  {
    if a as bv16 + b as bv16 > 0xFF - 1 then 1 else 0
  }

  /** The value 8XY5 writes to VF: the NOT-borrow of the 9-bit
      subtraction a + 0x100 - b, except that equal operands (no borrow) give
      0, because the test is the strict `>`. */
  function NoBorrowFlag(a: Byte, b: Byte): (f: Byte)
    ensures a != b ==> f as bv16 == (a as bv16 + 0x100 - b as bv16) / 0x100
    ensures a == b ==> f == 0
  {
    if a > b then 1 else 0
  }

  /** 8XY4: VF is written first, then VX := VX + VY modulo 256 is computed
      from the registers as they are after that write. */
  function AddRegisters(v: Registers, x: RegIndex, y: RegIndex): (r: Registers)
    ensures OnlyChanged(v, r, x, VF)
    ensures x != VF ==> r[VF] == CarryFlag(v[x], v[y])
  {
    var flagged := v[VF := CarryFlag(v[x], v[y])];
    flagged[x := flagged[x] + flagged[y]]
  }

  /** 8XY5: VF is written first, then VX := VX - VY modulo 256 is computed
      from the registers as they are after that write. */
  function SubRegisters(v: Registers, x: RegIndex, y: RegIndex): (r: Registers)
    ensures OnlyChanged(v, r, x, VF)
    ensures x != VF ==> r[VF] == NoBorrowFlag(v[x], v[y])
  {
    var flagged := v[VF := NoBorrowFlag(v[x], v[y])];
    flagged[x := flagged[x] - flagged[y]]
  }

  /** 8XY6 (and, as written, 8XY7): VF := VX AND 1, then VX := VX >> 1.
      Y is not used. When X is F the shift acts on the new VF, so VF ends 0. */
  function ShiftRight(v: Registers, x: RegIndex): (r: Registers)
    ensures OnlyChanged(v, r, x, VF)
    ensures x != VF ==> r[VF] == v[x] % 2 && r[x] == v[x] / 2
    ensures x == VF ==> r[VF] == 0
  {
    var flagged := v[VF := v[x] & 1];
    flagged[x := flagged[x] >> 1]
  }

  /** Away from VF, 8XY4 is a full adder except at a sum of exactly 0xFF,
      where the flag reports a carry that did not happen. */
  lemma AddRegistersCarry(v: Registers, x: RegIndex, y: RegIndex)
    requires x != VF && y != VF
    ensures var a, b, r := v[x] as bv16, v[y] as bv16, AddRegisters(v, x, y);
      r[x] as bv16 == (a + b) % 0x100 &&
      (a + b != 0xFF ==> r[x] as bv16 + r[VF] as bv16 * 0x100 == a + b) &&
      (a + b == 0xFF ==> r[x] == 0xFF && r[VF] == 1)
  {
  }

  /** Away from VF, 8XY5 is a subtractor with a borrow-out of 1 - VF,
      except when VX equals VY, where VF is 0 although nothing was borrowed. */
  lemma SubRegistersBorrow(v: Registers, x: RegIndex, y: RegIndex)
    requires x != VF && y != VF
    ensures var a, b, r := v[x] as bv16, v[y] as bv16, SubRegisters(v, x, y);
      r[x] as bv16 == (a + 0x100 - b) % 0x100 &&
      (a != b ==> r[x] as bv16 + b == a + (1 - r[VF] as bv16) * 0x100) &&
      (a == b ==> r[x] == 0 && r[VF] == 0)
  {
  }

  /** When Y is F, 8XY4 and 8XY5 use the flag they have just written in
      place of the old VF. */
  lemma FlagAsOperand(v: Registers, x: RegIndex)
    requires x != VF
    ensures AddRegisters(v, x, VF)[x] == v[x] + CarryFlag(v[x], v[VF])
    ensures SubRegisters(v, x, VF)[x] == v[x] - NoBorrowFlag(v[x], v[VF])
  {
  }

  /** When X is F, 8XY4 and 8XY5 overwrite the flag they have just written
      with the result, computed from that flag. */
  lemma FlagOverwritten(v: Registers, y: RegIndex)
    ensures var f := CarryFlag(v[VF], v[y]);
      AddRegisters(v, VF, y)[VF] == f + (if y == VF then f else v[y])
    ensures var f := NoBorrowFlag(v[VF], v[y]);
      SubRegisters(v, VF, y)[VF] == f - (if y == VF then f else v[y])
  {
  }

  /** Away from VF, the shift loses nothing: the new VX and VF put back
      together give the old VX. */
  lemma ShiftRightInverse(v: Registers, x: RegIndex)
    requires x != VF
    ensures var r := ShiftRight(v, x); r[x] * 2 + r[VF] == v[x]
  {
  }

  /** Loading a byte and then adding 0 to the same register leaves the byte. */
  lemma LoadThenAddZero(v: Registers, x: RegIndex, kk: Byte)
    ensures AddImmediate(LoadImmediate(v, x, kk), x, 0)[x] == kk
  {
  }

  // ---------------------------------------------------------------------
  // Memory

  /** mem with data written byte by byte from address at onwards, in the
      order the loaders' loops write it. */
  function CopyInto(mem: seq<Byte>, at: nat, data: seq<Byte>): (r: seq<Byte>)
    requires at + |data| <= |mem|
    ensures |r| == |mem|
    ensures forall i :: at <= i < at + |data| ==> r[i] == data[i - at]
    ensures forall i :: 0 <= i < |mem| && !(at <= i < at + |data|) ==> r[i] == mem[i]
    decreases |data|
  {
    if data == [] then mem
    else
      var n := |data| - 1;
      CopyInto(mem, at, data[..n])[at + n := data[n]]
  }
}
