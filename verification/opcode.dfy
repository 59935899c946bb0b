/** The CHIP-8 instruction word and its decoder.

    An instruction is a 16-bit word; the decoder exposes its fields by
    masking and shifting, without changing anything. */
module OpCodes {

  /** An 8-bit cell (C# `byte`). */
  type Byte = bv8

  /** A 16-bit word (C# `ushort`). */
  type Word = bv16

  /** A decoded view of one instruction word. The datatype field is the
      word the decoder was built from, returned as it was given. */
  datatype OpCode = OpCode(Opcode: Word) {

    /** The low 12 bits: an address or 12-bit immediate. */
    function NNN(): (r: Word)
      ensures r < 0x1000
      ensures r == Opcode % 0x1000
    {
      Opcode & 0x0FFF
    }

    /** The low byte: an 8-bit immediate. */
    function NN(): (r: Byte)
      ensures r as Word == Opcode % 0x100
    {
      (Opcode & 0x00FF) as Byte
    }

    /** The low nibble: a 4-bit immediate or sub-selector. */
    function N(): (r: Byte)
      ensures r < 0x10
      ensures r as Word == Opcode % 0x10
    {
      (Opcode & 0x000F) as Byte
    }

    /** Bits 8 to 11: the first register index. */
    function X(): (r: Byte)
      ensures r < 0x10
      ensures r as Word == Opcode / 0x100 % 0x10
    {
      ((Opcode & 0x0F00) >> 8) as Byte
    }

    /** Bits 4 to 7: the second register index. */
    function Y(): (r: Byte)
      ensures r < 0x10
      ensures r as Word == Opcode / 0x10 % 0x10
    {
      ((Opcode & 0x00F0) >> 4) as Byte
    }

    /** The top nibble, left in place (not shifted down): the opcode class
        selector, a multiple of 0x1000. */
    function Nibble(): (r: Word)
      ensures r % 0x1000 == 0
      ensures r == Opcode - Opcode % 0x1000
    {
      Opcode & 0xF000
    }
  }

  /** The four disjoint fields put back together give the word. */
  lemma Recompose(op: OpCode)
    ensures op.Opcode
         == op.Nibble() + op.X() as Word * 0x100 + op.Y() as Word * 0x10 + op.N() as Word
  {
  }

  /** The wider immediates are made of the narrower fields. */
  lemma Nesting(op: OpCode)
    ensures op.NN() == op.Y() * 0x10 + op.N()
    ensures op.NNN() == op.X() as Word * 0x100 + op.NN() as Word
  {
  }

  /** Decoding loses nothing: two words with the same class, X, Y and N
      are the same word. */
  lemma FieldsDetermineWord(a: OpCode, b: OpCode)
    requires a.Nibble() == b.Nibble() && a.X() == b.X() && a.Y() == b.Y() && a.N() == b.N()
    ensures a == b
  {
    Recompose(a);
    Recompose(b);
  }
}
