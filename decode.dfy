/**
 * Opcode decoding: the four-nibble split of a 16-bit opcode and the match that
 * turns the nibble tuple into an instruction, with its inverse, the encoder.
 */
module Chip8Decode {
  import opened Chip8Types

  /** The 35 instructions the interpreter's opcode match accepts. */
  datatype Instr =
    | Nop                              // 0000
    | ClearScreen                      // 00E0
    | Return                           // 00EE
    | Jump(addr: Addr)                 // 1NNN
    | Call(addr: Addr)                 // 2NNN
    | SkipEqByte(x: Nibble, nn: Byte)  // 3XNN
    | SkipNeByte(x: Nibble, nn: Byte)  // 4XNN
    | SkipEqReg(x: Nibble, y: Nibble)  // 5XY0
    | LoadByte(x: Nibble, nn: Byte)    // 6XNN
    | AddByte(x: Nibble, nn: Byte)     // 7XNN
    | Move(x: Nibble, y: Nibble)       // 8XY0
    | Or(x: Nibble, y: Nibble)         // 8XY1
    | And(x: Nibble, y: Nibble)        // 8XY2
    | Xor(x: Nibble, y: Nibble)        // 8XY3
    | AddReg(x: Nibble, y: Nibble)     // 8XY4
    | SubReg(x: Nibble, y: Nibble)     // 8XY5
    | ShiftRight(x: Nibble, y: Nibble) // 8XY6
    | SubNeg(x: Nibble, y: Nibble)     // 8XY7
    | ShiftLeft(x: Nibble, y: Nibble)  // 8XYE
    | SkipNeReg(x: Nibble, y: Nibble)  // 9XY0
    | LoadIndex(addr: Addr)            // ANNN
    | JumpOffset(addr: Addr)           // BNNN
    | Random(x: Nibble, nn: Byte)      // CXNN
    | Draw(x: Nibble, y: Nibble, n: Nibble) // DXYN
    | SkipKey(x: Nibble)               // EX9E
    | SkipNoKey(x: Nibble)             // EXA1
    | GetDelay(x: Nibble)              // FX07
    | WaitKey(x: Nibble)               // FX0A
    | SetDelay(x: Nibble)              // FX15
    | SetSound(x: Nibble)              // FX18
    | AddIndex(x: Nibble)              // FX1E
    | FontChar(x: Nibble)              // FX29
    | StoreBcd(x: Nibble)              // FX33
    | StoreRegs(x: Nibble)             // FX55
    | LoadRegs(x: Nibble)              // FX65

  /** `(op >> 12, (op >> 8) & 0xF, (op >> 4) & 0xF, op & 0xF)` on a u16. */
  function Nibbles(op: Word): (Nibble, Nibble, Nibble, Nibble) {
    (op / 0x1000, op / 0x100 % 0x10, op / 0x10 % 0x10, op % 0x10)
  }

  /** The four nibbles put back together, most significant first. */
  function Assemble(d1: Nibble, d2: Nibble, d3: Nibble, d4: Nibble): Word {
    d1 * 0x1000 + d2 * 0x100 + d3 * 0x10 + d4
  }

  /** `(n1 << 8) | (n2 << 4) | n3`: the NNN operand. */
  function Address(n1: Nibble, n2: Nibble, n3: Nibble): Addr {
    n1 * 0x100 + n2 * 0x10 + n3
  }

  /** `(n1 << 4) | n2`: the NN operand. */
  function ByteOf(n1: Nibble, n2: Nibble): Byte {
    n1 * 0x10 + n2
  }

  /**
   * The interpreter's opcode match on the nibble tuple, split by the leading
   * nibble; `None` is the invalid-opcode arm.
   */
  function Decode(op: Word): Option<Instr> {
    var (d1, d2, d3, d4) := Nibbles(op);
    DecodeDigits(d1, d2, d3, d4)
  }

  /** The match itself, on the nibble tuple. */
  function DecodeDigits(d1: Nibble, d2: Nibble, d3: Nibble, d4: Nibble): Option<Instr> {
    match d1
    case 0 => DecodeSystem(d2, d3, d4)
    case 1 => Some(Jump(Address(d2, d3, d4)))
    case 2 => Some(Call(Address(d2, d3, d4)))
    case 3 => Some(SkipEqByte(d2, ByteOf(d3, d4)))
    case 4 => Some(SkipNeByte(d2, ByteOf(d3, d4)))
    case 5 => if d4 == 0 then Some(SkipEqReg(d2, d3)) else None
    case 6 => Some(LoadByte(d2, ByteOf(d3, d4)))
    case 7 => Some(AddByte(d2, ByteOf(d3, d4)))
    case 8 => DecodeArith(d2, d3, d4)
    case 9 => if d4 == 0 then Some(SkipNeReg(d2, d3)) else None
    case 0xA => Some(LoadIndex(Address(d2, d3, d4)))
    case 0xB => Some(JumpOffset(Address(d2, d3, d4)))
    case 0xC => Some(Random(d2, ByteOf(d3, d4)))
    case 0xD => Some(Draw(d2, d3, d4))
    case 0xE => DecodeKeys(d2, d3, d4)
    case 0xF => DecodeMisc(d2, d3, d4)
  }

  /** Opcodes 0NNN: only 0000, 00E0 and 00EE are accepted. */
  function DecodeSystem(d2: Nibble, d3: Nibble, d4: Nibble): Option<Instr> {
    match (d2, d3, d4)
    case (0, 0, 0) => Some(Nop)
    case (0, 0xE, 0) => Some(ClearScreen)
    case (0, 0xE, 0xE) => Some(Return)
    case _ => None
  }

  /** Opcodes 8XYN: the register-to-register arithmetic selected by N. */
  function DecodeArith(x: Nibble, y: Nibble, d4: Nibble): Option<Instr> {
    match d4
    case 0 => Some(Move(x, y))
    case 1 => Some(Or(x, y))
    case 2 => Some(And(x, y))
    case 3 => Some(Xor(x, y))
    case 4 => Some(AddReg(x, y))
    case 5 => Some(SubReg(x, y))
    case 6 => Some(ShiftRight(x, y))
    case 0xE => Some(ShiftLeft(x, y))
    case 7 => Some(SubNeg(x, y))
    case _ => None
  }

  /** Opcodes EXNN: only EX9E and EXA1 are accepted. */
  function DecodeKeys(x: Nibble, d3: Nibble, d4: Nibble): Option<Instr> {
    match (d3, d4)
    case (9, 0xE) => Some(SkipKey(x))
    case (0xA, 1) => Some(SkipNoKey(x))
    case _ => None
  }

  /** Opcodes FXNN: timers, index register, BCD and register blocks, selected by NN. */
  function DecodeMisc(x: Nibble, d3: Nibble, d4: Nibble): Option<Instr> {
    match (d3, d4)
    case (0, 7) => Some(GetDelay(x))
    case (1, 5) => Some(SetDelay(x))
    case (1, 8) => Some(SetSound(x))
    case (1, 0xE) => Some(AddIndex(x))
    case (0, 0xA) => Some(WaitKey(x))
    case (2, 9) => Some(FontChar(x))
    case (3, 3) => Some(StoreBcd(x))
    case (5, 5) => Some(StoreRegs(x))
    case (6, 5) => Some(LoadRegs(x))
    case _ => None
  }

  /** The canonical opcode of an instruction, as its four nibbles. */
  function Digits(ins: Instr): (Nibble, Nibble, Nibble, Nibble) {
    match ins
    case Nop => (0, 0, 0, 0)
    case ClearScreen => (0, 0, 0xE, 0)
    case Return => (0, 0, 0xE, 0xE)
    case Jump(a) => (1, a / 0x100, a / 0x10 % 0x10, a % 0x10)
    case Call(a) => (2, a / 0x100, a / 0x10 % 0x10, a % 0x10)
    case SkipEqByte(x, nn) => (3, x, nn / 0x10, nn % 0x10)
    case SkipNeByte(x, nn) => (4, x, nn / 0x10, nn % 0x10)
    case SkipEqReg(x, y) => (5, x, y, 0)
    case LoadByte(x, nn) => (6, x, nn / 0x10, nn % 0x10)
    case AddByte(x, nn) => (7, x, nn / 0x10, nn % 0x10)
    case Move(x, y) => (8, x, y, 0)
    case Or(x, y) => (8, x, y, 1)
    case And(x, y) => (8, x, y, 2)
    case Xor(x, y) => (8, x, y, 3)
    case AddReg(x, y) => (8, x, y, 4)
    case SubReg(x, y) => (8, x, y, 5)
    case ShiftRight(x, y) => (8, x, y, 6)
    case SubNeg(x, y) => (8, x, y, 7)
    case ShiftLeft(x, y) => (8, x, y, 0xE)
    case SkipNeReg(x, y) => (9, x, y, 0)
    case LoadIndex(a) => (0xA, a / 0x100, a / 0x10 % 0x10, a % 0x10)
    case JumpOffset(a) => (0xB, a / 0x100, a / 0x10 % 0x10, a % 0x10)
    case Random(x, nn) => (0xC, x, nn / 0x10, nn % 0x10)
    case Draw(x, y, n) => (0xD, x, y, n)
    case SkipKey(x) => (0xE, x, 9, 0xE)
    case SkipNoKey(x) => (0xE, x, 0xA, 1)
    case GetDelay(x) => (0xF, x, 0, 7)
    case WaitKey(x) => (0xF, x, 0, 0xA)
    case SetDelay(x) => (0xF, x, 1, 5)
    case SetSound(x) => (0xF, x, 1, 8)
    case AddIndex(x) => (0xF, x, 1, 0xE)
    case FontChar(x) => (0xF, x, 2, 9)
    case StoreBcd(x) => (0xF, x, 3, 3)
    case StoreRegs(x) => (0xF, x, 5, 5)
    case LoadRegs(x) => (0xF, x, 6, 5)
  }

  /** The canonical opcode of an instruction. */
  function Encode(ins: Instr): Word {
    var (d1, d2, d3, d4) := Digits(ins);
    Assemble(d1, d2, d3, d4)
  }

  /** Quotient and remainder by 16, 256 and 4096 are determined by any decomposition with a remainder in range. */
  lemma Split16(x: int, q: int, r: int)
    requires 0 <= r < 0x10 && x == 0x10 * q + r
    ensures x / 0x10 == q && x % 0x10 == r
  {
  }

  lemma Split256(x: int, q: int, r: int)
    requires 0 <= r < 0x100 && x == 0x100 * q + r
    ensures x / 0x100 == q && x % 0x100 == r
  {
  }

  lemma Split4096(x: int, q: int, r: int)
    requires 0 <= r < 0x1000 && x == 0x1000 * q + r
    ensures x / 0x1000 == q
  {
  }

  /** Splitting an assembled word gives back its digits. */
  lemma NibblesOfAssemble(d1: Nibble, d2: Nibble, d3: Nibble, d4: Nibble)
    ensures Nibbles(Assemble(d1, d2, d3, d4)) == (d1, d2, d3, d4)
  {
    var op := Assemble(d1, d2, d3, d4);
    Split16(op, d1 * 0x100 + d2 * 0x10 + d3, d4);
    Split16(op / 0x10, d1 * 0x10 + d2, d3);
    Split256(op, d1 * 0x10 + d2, d3 * 0x10 + d4);
    Split16(op / 0x100, d1, d2);
    Split4096(op, d1, d2 * 0x100 + d3 * 0x10 + d4);
  }

  /** Every word is the assembly of its own nibbles. */
  lemma AssembleOfNibbles(op: Word)
    ensures var (d1, d2, d3, d4) := Nibbles(op); Assemble(d1, d2, d3, d4) == op
  {
    var q1, r1 := op / 0x10, op % 0x10;
    var q2, r2 := q1 / 0x10, q1 % 0x10;
    var q3, r3 := q2 / 0x10, q2 % 0x10;
    Split256(op, q2, 0x10 * r2 + r1);
    Split4096(op, q3, 0x100 * r3 + 0x10 * r2 + r1);
  }

  /** An address is the NNN operand of its own three nibbles. */
  lemma AddressSplit(a: Addr)
    ensures 0 <= a / 0x100 < 0x10
    ensures Address(a / 0x100, a / 0x10 % 0x10, a % 0x10) == a
  {
    var q1, r1 := a / 0x10, a % 0x10;
    var q2, r2 := q1 / 0x10, q1 % 0x10;
    Split256(a, q2, 0x10 * r2 + r1);
  }

  /** A byte is the NN operand of its own two nibbles. */
  lemma ByteSplit(b: Byte)
    ensures 0 <= b / 0x10 < 0x10
    ensures ByteOf(b / 0x10, b % 0x10) == b
  {
  }

  /** The three nibbles of an NNN operand are recovered from it. */
  lemma AddressDigits(n1: Nibble, n2: Nibble, n3: Nibble)
    ensures var a := Address(n1, n2, n3); a / 0x100 == n1 && a / 0x10 % 0x10 == n2 && a % 0x10 == n3
  {
    var a := Address(n1, n2, n3);
    Split16(a, n1 * 0x10 + n2, n3);
    Split16(a / 0x10, n1, n2);
    Split256(a, n1, n2 * 0x10 + n3);
  }

  /** Decoding the digits of an instruction gives the instruction back. */
  lemma DecodeDigitsOfDigits(ins: Instr)
    ensures var (d1, d2, d3, d4) := Digits(ins); DecodeDigits(d1, d2, d3, d4) == Some(ins)
  {
    if ins.Jump? || ins.Call? || ins.LoadIndex? || ins.JumpOffset? {
      AddressSplit(ins.addr);
    } else if ins.SkipEqByte? || ins.SkipNeByte? || ins.LoadByte? || ins.AddByte? || ins.Random? {
      ByteSplit(ins.nn);
    }
  }

  /** The digits of a decoded instruction are the digits it was decoded from. */
  lemma DigitsOfDecodeDigits(d1: Nibble, d2: Nibble, d3: Nibble, d4: Nibble)
    requires DecodeDigits(d1, d2, d3, d4).Some?
    ensures Digits(DecodeDigits(d1, d2, d3, d4).value) == (d1, d2, d3, d4)
  {
    if d1 in {1, 2, 0xA, 0xB} {
      AddressDigits(d2, d3, d4);
    } else if d1 in {3, 4, 6, 7, 0xC} {
      assert ByteOf(d3, d4) / 0x10 == d3;
    }
  }

  /** Decoding undoes encoding: every instruction has an opcode that the match maps back to it. */
  lemma DecodeEncode(ins: Instr)
    ensures Decode(Encode(ins)) == Some(ins)
  {
    var (d1, d2, d3, d4) := Digits(ins);
    NibblesOfAssemble(d1, d2, d3, d4);
    DecodeDigitsOfDigits(ins);
  }

  /** Encoding undoes decoding: the match accepts each opcode at most once, so the decoder is injective. */
  lemma EncodeDecode(op: Word)
    requires Decode(op).Some?
    ensures Encode(Decode(op).value) == op
  {
    var (d1, d2, d3, d4) := Nibbles(op);
    AssembleOfNibbles(op);
    DigitsOfDecodeDigits(d1, d2, d3, d4);
  }

  /** The example of a rejected opcode: 5XY0 with a non-zero last nibble. */
  lemma InvalidOpcodeExample()
    ensures Decode(0x5001) == None
  {
  }
}
