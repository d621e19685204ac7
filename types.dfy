/** Machine-level types, constants and the value-level machine state of the CHIP-8 interpreter. */
module Chip8Types {

  /** Rust `u8`, `u16`, a 4-bit opcode digit and a 12-bit opcode address. */
  type Byte = x: int | 0 <= x < 0x100
  type Word = x: int | 0 <= x < 0x1_0000
  type Nibble = x: int | 0 <= x < 0x10
  type Addr = x: int | 0 <= x < 0x1000

  const RAM_SIZE := 4096
  const SCREEN_WIDTH := 64
  const SCREEN_HEIGHT := 32
  const SCREEN_SIZE := 2048
  const NUM_REGS := 16
  const STACK_SIZE := 16
  const NUM_KEYS := 16
  const START_ADDR := 0x200
  const FONTSET_SIZE := 80
  /** The register that doubles as carry, borrow, shift-out and collision flag. */
  const VF := 0xF

  /** The sixteen hexadecimal glyphs 0..F, five bytes each. */
  const FONTSET: seq<Byte> := [
    0xF0, 0x90, 0x90, 0x90, 0xF0, // 0
    0x20, 0x60, 0x20, 0x20, 0x70, // 1
    0xF0, 0x10, 0xF0, 0x80, 0xF0, // 2
    0xF0, 0x10, 0xF0, 0x10, 0xF0, // 3
    0x90, 0x90, 0xF0, 0x10, 0x10, // 4
    0xF0, 0x80, 0xF0, 0x10, 0xF0, // 5
    0xF0, 0x80, 0xF0, 0x90, 0xF0, // 6
    0xF0, 0x10, 0x20, 0x40, 0x40, // 7
    0xF0, 0x90, 0xF0, 0x90, 0xF0, // 8
    0xF0, 0x90, 0xF0, 0x10, 0xF0, // 9
    0xF0, 0x90, 0xF0, 0x90, 0x90, // A
    0xE0, 0x90, 0xE0, 0x90, 0xE0, // B
    0xF0, 0x80, 0x80, 0x80, 0xF0, // C
    0xE0, 0x90, 0x90, 0x90, 0xE0, // D
    0xF0, 0x80, 0xF0, 0x80, 0xF0, // E
    0xF0, 0x80, 0xF0, 0x80, 0x80  // F
  ]

  /**
   * The conditions under which the interpreter aborts. Each one stands for a
   * Rust panic: an array index out of bounds, a `u16` overflow (debug build)
   * or the invalid-opcode `panic!`.
   */
  datatype Fault =
    | InvalidOpcode(op: Word)     // no arm of the opcode match applies
    | MemoryOutOfBounds           // a memory index reaches RAM_SIZE
    | ScreenOutOfBounds           // a sprite pixel index reaches SCREEN_SIZE
    | StackOverflow               // a stack index reaches STACK_SIZE
    | StackUnderflow              // `sp -= 1` with sp == 0
    | KeyOutOfRange(key: int)     // a key index reaches NUM_KEYS
    | AddressOverflow             // `pc += 2` or `i_reg += vx` leaves u16
    | RomTooLarge(size: nat)      // the ROM does not fit above START_ADDR

  datatype Outcome<+T> = Ok(value: T) | Err(fault: Fault)

  datatype Option<+T> = None | Some(value: T)

  /** All fields of the `Chip8` struct, as values. */
  datatype Machine = Machine(
    memory: seq<Byte>,
    v: seq<Byte>,
    i: Word,
    sp: Word,
    pc: Word,
    stack: seq<Word>,
    delayTimer: Byte,
    soundTimer: Byte,
    keys: seq<bool>,
    screen: seq<bool>,
    opcode: Word)

  /** The fixed sizes of the struct's arrays. */
  predicate WellFormed(m: Machine) {
    |m.memory| == RAM_SIZE && |m.v| == NUM_REGS && |m.stack| == STACK_SIZE &&
    |m.keys| == NUM_KEYS && |m.screen| == SCREEN_SIZE
  }

  /** A machine whose arrays have the struct's sizes. */
  type State = m: Machine | WellFormed(m)
    witness Machine(seq(RAM_SIZE, _ => 0), seq(NUM_REGS, _ => 0), 0, 0, START_ADDR,
                    seq(STACK_SIZE, _ => 0), 0, 0, seq(NUM_KEYS, _ => false),
                    seq(SCREEN_SIZE, _ => false), 0)

  /** The invariant the interpreter keeps: the stack pointer never passes the stack's capacity. */
  predicate StackBounded(m: State) {
    m.sp <= STACK_SIZE
  }
}
