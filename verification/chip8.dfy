/** The CHIP-8 CPU: memory, registers, program counter, return-address
    stack and framebuffer, with the instruction handlers that update them in
    place. The skip and register handlers are proved against the value-level
    definitions of their effects in module Instructions; the others state
    their new state directly. */
module Chip8 {
  import opened OpCodes
  import opened Instructions

  /** Framebuffer width and height in cells. */
  const VideoWidth: nat := 64
  const VideoHeight: nat := 32

  /** The longest program that fits between StartAddress and the end of
      memory. */
  const MaxProgramSize: nat := MemorySize - 0x200

  function Min(a: nat, b: nat): nat
  {
    if a <= b then a else b
  }

  class CPU {
    /** The 4096-byte memory image. */
    const RAM: array<Byte>
    /** Return addresses; the top of the stack is the last element. */
    var Stack: seq<Word>
    /** The sixteen V registers. */
    const V: array<Byte>
    /** The program counter (a ushort). */
    var PC: Word
    /** The 64 x 32 framebuffer of 32-bit cells. */
    const Video: array2<bv32>

    ghost predicate Valid()
      reads this
    {
      && RAM.Length == MemorySize
      && V.Length == RegisterCount
      && Video.Length0 == VideoWidth && Video.Length1 == VideoHeight
      && RAM != V
    }

    /** A fresh CPU: everything zero, the program counter at 0x200, the
        glyph table `sprites` (the font) written from 0x50 on. */
    constructor (sprites: seq<Byte>)
      requires FontAddress + |sprites| <= MemorySize
      ensures Valid() && fresh(RAM) && fresh(V) && fresh(Video)
      ensures PC == StartAddress && Stack == []
      ensures RAM[..] == CopyInto(seq(MemorySize, _ => 0), FontAddress, sprites)
      ensures forall i :: 0 <= i < |sprites| ==> RAM[FontAddress + i] == sprites[i]
      ensures forall i :: 0 <= i < RegisterCount ==> V[i] == 0
      ensures forall i, j :: 0 <= i < VideoWidth && 0 <= j < VideoHeight ==> Video[i, j] == 0
    {
      RAM := new Byte[MemorySize](_ => 0);
      V := new Byte[RegisterCount](_ => 0);
      Video := new bv32[VideoWidth, VideoHeight]((_, _) => 0);
      Stack := [];
      PC := StartAddress;
      new;
      assert RAM[..] == seq(MemorySize, _ => 0);
      LoadFontSet(sprites);
    }

    /** Writes the glyph table byte by byte from 0x50 on. */
    method LoadFontSet(sprites: seq<Byte>)
      requires Valid()
      requires FontAddress + |sprites| <= MemorySize
      modifies RAM
      ensures RAM[..] == CopyInto(old(RAM[..]), FontAddress, sprites)
    {
      var i := 0;
      while i < |sprites|
        invariant 0 <= i <= |sprites|
        invariant RAM[..] == CopyInto(old(RAM[..]), FontAddress, sprites[..i])
      {
        RAM[FontAddress + i] := sprites[i];
        assert sprites[..i + 1][..i] == sprites[..i];
        i := i + 1;
      }
      assert sprites[..i] == sprites;
    }

    /** Writes program byte by byte from 0x200 on. A program longer than
        MaxProgramSize faults (ok is false) once its first MaxProgramSize
        bytes are written; the program counter and everything outside
        memory are untouched. */
    method LoadROM(program: seq<Byte>) returns (ok: bool)
      requires Valid()
      modifies RAM
      ensures ok <==> |program| <= MaxProgramSize
      ensures RAM[..] == CopyInto(old(RAM[..]), StartAddress as nat, program[..Min(|program|, MaxProgramSize)])
    {
      var i := 0;
      while i < |program|
        invariant 0 <= i <= |program| && i <= MaxProgramSize
        invariant RAM[..] == CopyInto(old(RAM[..]), StartAddress as nat, program[..i])
      {
        if StartAddress as nat + i >= RAM.Length {
          return false;
        }
        RAM[StartAddress as nat + i] := program[i];
        assert program[..i + 1][..i] == program[..i];
        i := i + 1;
      }
      assert program[..i] == program;
      return true;
    }

    /** The big-endian word at pc and pc + 1; None where the C# array
        access would fault (pc + 1 beyond the last address). */
    function GetNextInstruction(pc: Word): (r: Option<Word>)
      reads this, RAM
      requires Valid()
      ensures r.Some? <==> pc as nat + 1 < MemorySize
      ensures r.Some? ==> r.value == RAM[pc as nat] as Word * 0x100 + RAM[pc as nat + 1] as Word
      ensures r.Some? ==> r.value / 0x100 == RAM[pc as nat] as Word
      ensures r.Some? ==> r.value % 0x100 == RAM[pc as nat + 1] as Word
    {
      if pc as nat + 1 < RAM.Length then
        Some(PackBigEndian(RAM[pc as nat], RAM[pc as nat + 1]))
      else
        None
    }

    /** 00E0: clears every framebuffer cell. */
    method Op00E0()
      requires Valid()
      modifies Video
      ensures forall i, j :: 0 <= i < VideoWidth && 0 <= j < VideoHeight ==> Video[i, j] == 0
      ensures PC == old(PC) && Stack == old(Stack)
      ensures V[..] == old(V[..]) && RAM[..] == old(RAM[..])
    {
      forall i, j | 0 <= i < Video.Length0 && 0 <= j < Video.Length1 {
        Video[i, j] := 0;
      }
    }

    /** 00EE: pops the return-address stack and discards the address; the
        program counter is not changed. Popping an empty stack faults
        (ok is false) and changes nothing. */
    method Op00EE() returns (ok: bool)
      requires Valid()
      modifies this
      ensures ok <==> old(Stack) != []
      ensures ok ==> Stack == old(Stack)[..|old(Stack)| - 1]
      ensures !ok ==> Stack == old(Stack)
      ensures PC == old(PC)
      ensures V[..] == old(V[..]) && RAM[..] == old(RAM[..])
    {
      if Stack == [] {
        return false;
      }
      Stack := Stack[..|Stack| - 1];
      return true;
    }

    /** 1NNN: jumps to NNN; the new program counter is a 12-bit address. */
    method Op1NNN(address: Word)
      requires Valid()
      modifies this
      ensures PC == OpCode(address).NNN() && PC < 0x1000
      ensures Stack == old(Stack)
      ensures V[..] == old(V[..]) && RAM[..] == old(RAM[..])
    {
      PC := address & 0x0FFF;
    }

    /** 2NNN: pushes the current program counter, then jumps to NNN. */
    method Op2NNN(address: Word)
      requires Valid()
      modifies this
      ensures Stack == old(Stack) + [old(PC)]
      ensures PC == OpCode(address).NNN() && PC < 0x1000
      ensures V[..] == old(V[..]) && RAM[..] == old(RAM[..])
    {
      var target := address & 0x0FFF;
      Stack := Stack + [PC];
      PC := target;
    }

    /** 3XKK: skips the next instruction when VX == kk. */
    method Op3XKK(address: Word)
      requires Valid()
      modifies this
      ensures PC == Advance(old(PC), SkipIfEqualImmediate(V[..], RegX(address), OpCode(address).NN()))
      ensures Stack == old(Stack)
      ensures V[..] == old(V[..]) && RAM[..] == old(RAM[..])
    {
      var x := RegX(address);
      if V[x] == OpCode(address).NN() {
        PC := PC + 2;
      }
    }

    /** 4XKK: skips the next instruction when VX != kk. */
    method Op4XKK(address: Word)
      requires Valid()
      modifies this
      ensures PC == Advance(old(PC), SkipIfNotEqualImmediate(V[..], RegX(address), OpCode(address).NN()))
      ensures Stack == old(Stack)
      ensures V[..] == old(V[..]) && RAM[..] == old(RAM[..])
    {
      var x := RegX(address);
      if V[x] != OpCode(address).NN() {
        PC := PC + 2;
      }
    }

    /** 5XY0: skips the next instruction when VX == VY. */
    method Op5XY0(address: Word)
      requires Valid()
      modifies this
      ensures PC == Advance(old(PC), SkipIfEqualRegisters(V[..], RegX(address), RegY(address)))
      ensures Stack == old(Stack)
      ensures V[..] == old(V[..]) && RAM[..] == old(RAM[..])
    {
      var x, y := RegX(address), RegY(address);
      if V[x] == V[y] {
        PC := PC + 2;
      }
    }

    /** 6XKK: VX := kk. */
    method Op6XKK(address: Word)
      requires Valid()
      modifies V
      ensures V[..] == LoadImmediate(old(V[..]), RegX(address), OpCode(address).NN())
      ensures PC == old(PC) && Stack == old(Stack) && RAM[..] == old(RAM[..])
    {
      var x := RegX(address);
      V[x] := OpCode(address).NN();
    }

    /** 7XKK: VX := VX + kk, wrapping at 8 bits. */
    method Op7XKK(address: Word)
      requires Valid()
      modifies V
      ensures V[..] == AddImmediate(old(V[..]), RegX(address), OpCode(address).NN())
      ensures PC == old(PC) && Stack == old(Stack) && RAM[..] == old(RAM[..])
    {
      var x := RegX(address);
      V[x] := V[x] + OpCode(address).NN();
    }

    /** 8XY0: VX := VY. */
    method Op8XY0(address: Word)
      requires Valid()
      modifies V
      ensures V[..] == CopyRegister(old(V[..]), RegX(address), RegY(address))
      ensures PC == old(PC) && Stack == old(Stack) && RAM[..] == old(RAM[..])
    {
      var x, y := RegX(address), RegY(address);
      V[x] := V[y];
    }

    /** 8XY1: VX := VX OR VY. */
    method Op8XY1(address: Word)
      requires Valid()
      modifies V
      ensures V[..] == OrRegisters(old(V[..]), RegX(address), RegY(address))
      ensures PC == old(PC) && Stack == old(Stack) && RAM[..] == old(RAM[..])
    {
      var x, y := RegX(address), RegY(address);
      V[x] := V[x] | V[y];
    }

    /** 8XY2: VX := VX AND VY. */
    method Op8XY2(address: Word)
      requires Valid()
      modifies V
      ensures V[..] == AndRegisters(old(V[..]), RegX(address), RegY(address))
      ensures PC == old(PC) && Stack == old(Stack) && RAM[..] == old(RAM[..])
    {
      var x, y := RegX(address), RegY(address);
      V[x] := V[x] & V[y];
    }

    /** 8XY3: VX := VX XOR VY. */
    method Op8XY3(address: Word)
      requires Valid()
      modifies V
      ensures V[..] == XorRegisters(old(V[..]), RegX(address), RegY(address))
      ensures PC == old(PC) && Stack == old(Stack) && RAM[..] == old(RAM[..])
    {
      var x, y := RegX(address), RegY(address);
      V[x] := V[x] ^ V[y];
    }

    /** 8XY4: VF := 1 when VX + VY > 0xFF - 1, else 0 (CarryFlag); then
        VX := VX + VY. */
    method Op8XY4(address: Word)
      requires Valid()
      modifies V
      ensures V[..] == AddRegisters(old(V[..]), RegX(address), RegY(address))
      ensures PC == old(PC) && Stack == old(Stack) && RAM[..] == old(RAM[..])
    {
      var x, y := RegX(address), RegY(address);
      V[VF] := CarryFlag(V[x], V[y]);
      V[x] := V[x] + V[y];
    }

    /** 8XY5: VF := 1 when VX > VY, else 0 (NoBorrowFlag); then
        VX := VX - VY. */
    method Op8XY5(address: Word)
      requires Valid()
      modifies V
      ensures V[..] == SubRegisters(old(V[..]), RegX(address), RegY(address))
      ensures PC == old(PC) && Stack == old(Stack) && RAM[..] == old(RAM[..])
    {
      var x, y := RegX(address), RegY(address);
      V[VF] := NoBorrowFlag(V[x], V[y]);
      V[x] := V[x] - V[y];
    }

    /** 8XY6: VF := VX AND 1; then VX := VX >> 1. */
    method Op8XY6(address: Word)
      requires Valid()
      modifies V
      ensures V[..] == ShiftRight(old(V[..]), RegX(address))
      ensures PC == old(PC) && Stack == old(Stack) && RAM[..] == old(RAM[..])
    {
      var x := RegX(address);
      V[VF] := V[x] & 1;
      V[x] := V[x] >> 1;
    }

    /** 8XY7: as written, the same code as 8XY6 (a right shift), not a
        reverse subtraction. */
    method Op8XY7(address: Word)
      requires Valid()
      modifies V
      ensures V[..] == ShiftRight(old(V[..]), RegX(address))
      ensures PC == old(PC) && Stack == old(Stack) && RAM[..] == old(RAM[..])
    {
      var x := RegX(address);
      V[VF] := V[x] & 1;
      V[x] := V[x] >> 1;
    }
  }
}
