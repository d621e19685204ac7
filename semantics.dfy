/**
 * The interpreter as functions on machine values: construction, reset, ROM
 * loading, key events, the stack, fetch, and the effect of every instruction.
 * Each Rust panic is an `Err` carrying the matching `Fault`; after a fault the
 * run is over, so an `Err` carries no machine.
 */
module Chip8Semantics {
  import opened Chip8Types
  import opened Chip8Decode

  /** The fresh machine of `Chip8::new`: font at 0, PC at 0x200, everything else zero. */
  function Initial(): State {
    Machine(FONTSET + seq(RAM_SIZE - FONTSET_SIZE, _ => 0), seq(NUM_REGS, _ => 0), 0, 0, START_ADDR,
            seq(STACK_SIZE, _ => 0), 0, 0, seq(NUM_KEYS, _ => false), seq(SCREEN_SIZE, _ => false), 0)
  }

  /** `reset`: zero registers, stack, keys, screen and timers, reinstall the font, PC = 0x200. */
  function Reset(m: State): State {
    Machine(FONTSET + m.memory[FONTSET_SIZE..], seq(NUM_REGS, _ => 0), 0, 0, START_ADDR,
            seq(STACK_SIZE, _ => 0), 0, 0, seq(NUM_KEYS, _ => false), seq(SCREEN_SIZE, _ => false), 0)
  }

  /** `load_rom`: copy the ROM to START_ADDR; the slice copy panics when it does not fit. */
  function LoadRom(m: State, rom: seq<Byte>): Outcome<State> {
    if START_ADDR + |rom| > RAM_SIZE then Err(RomTooLarge(|rom|))
    else Ok(m.(memory := m.memory[..START_ADDR] + rom + m.memory[START_ADDR + |rom|..]))
  }

  /** `key_press`: set one key flag; the index panics past the keypad. */
  function KeyPress(m: State, key: nat, pressed: bool): Outcome<State> {
    if key >= NUM_KEYS then Err(KeyOutOfRange(key))
    else Ok(m.(keys := m.keys[key := pressed]))
  }

  /** `push_to_stack`: store at `stack[sp]`, then increment SP. */
  function Push(m: State, value: Word): Outcome<State> {
    if m.sp >= STACK_SIZE then Err(StackOverflow)
    else Ok(m.(stack := m.stack[m.sp := value], sp := m.sp + 1))
  }

  datatype Popped = Popped(value: Word, next: State)

  /** `pop_from_stack`: decrement SP, read `stack[sp]` and zero that slot. */
  function Pop(m: State): Outcome<Popped> {
    if m.sp == 0 then Err(StackUnderflow)
    else if m.sp - 1 >= STACK_SIZE then Err(StackOverflow)
    else Ok(Popped(m.stack[m.sp - 1], m.(sp := m.sp - 1, stack := m.stack[m.sp - 1 := 0])))
  }

  /** `(first << 8) | second` on u16, which for two bytes is first * 0x100 + second. */
  function BigEndian(first: Byte, second: Byte): Word {
    first * 0x100 + second
  }

  datatype Fetched = Fetched(op: Word, next: State)

  /** `fetch_instruction`: read the opcode at PC, big-endian, and advance PC by 2. */
  function Fetch(m: State): Outcome<Fetched> {
    if m.pc + 1 >= RAM_SIZE then Err(MemoryOutOfBounds)
    else Ok(Fetched(BigEndian(m.memory[m.pc], m.memory[m.pc + 1]), m.(pc := m.pc + 2)))
  }

  /** `execute_instruction`: decode, then run the instruction; an unmatched opcode is fatal. */
  function Execute(m: State, op: Word, rnd: Byte): Outcome<State> {
    match Decode(op)
    case None => Err(InvalidOpcode(op))
    case Some(ins) => Run(m, ins, rnd)
  }

  /** One interpreter cycle of the host loop: fetch, then execute. */
  function Step(m: State, rnd: Byte): Outcome<State> {
    match Fetch(m)
    case Err(f) => Err(f)
    case Ok(Fetched(op, next)) => Execute(next, op, rnd)
  }

  /** The instructions by what they touch. */
  datatype Group = ControlGroup | SkipGroup | ArithGroup | ExchangeGroup | MemoryGroup

  function GroupOf(ins: Instr): Group {
    match ins
    case Nop | ClearScreen | Return | Jump(_) | Call(_) | LoadIndex(_) | JumpOffset(_) => ControlGroup
    case SkipEqByte(_, _) | SkipNeByte(_, _) | SkipEqReg(_, _) | SkipNeReg(_, _) | SkipKey(_) | SkipNoKey(_) => SkipGroup
    case LoadByte(_, _) | AddByte(_, _) | Move(_, _) | Or(_, _) | And(_, _) | Xor(_, _) |
         AddReg(_, _) | SubReg(_, _) | ShiftRight(_, _) | SubNeg(_, _) | ShiftLeft(_, _) => ArithGroup
    case Random(_, _) | GetDelay(_) | WaitKey(_) | SetDelay(_) | SetSound(_) => ExchangeGroup
    case Draw(_, _, _) | AddIndex(_) | FontChar(_) | StoreBcd(_) | StoreRegs(_) | LoadRegs(_) => MemoryGroup
  }

  /** The effect of one decoded instruction; `rnd` is the byte `rand::random` would give CXNN. */
  function Run(m: State, ins: Instr, rnd: Byte): Outcome<State> {
    match GroupOf(ins)
    case ControlGroup => ControlEffect(m, ins)
    case SkipGroup => SkipEffect(m, ins)
    case ArithGroup => Ok(ArithEffect(m, ins))
    case ExchangeGroup => Ok(ExchangeEffect(m, ins, rnd))
    case MemoryGroup => MemoryEffect(m, ins)
  }

  /** 0000, 00E0, 00EE, 1NNN, 2NNN, ANNN, BNNN: the screen, the stack, PC and I. */
  function ControlEffect(m: State, ins: Instr): Outcome<State>
    requires GroupOf(ins) == ControlGroup
  {
    match ins
    case Nop => Ok(m)
    case ClearScreen => Ok(m.(screen := seq(SCREEN_SIZE, _ => false)))
    case Return =>
      (match Pop(m)
       case Err(f) => Err(f)
       case Ok(Popped(addr, next)) => Ok(next.(pc := addr)))
    case Jump(a) => Ok(m.(pc := a))
    case Call(a) =>
      (match Push(m, m.pc)
       case Err(f) => Err(f)
       case Ok(next) => Ok(next.(pc := a)))
    case LoadIndex(a) => Ok(m.(i := a))
    case JumpOffset(a) => Ok(m.(pc := (a + m.v[0]) % 0x1_0000))
  }

  /** 3XNN, 4XNN, 5XY0, 9XY0, EX9E, EXA1; the key skips index the keypad with VX. */
  function SkipEffect(m: State, ins: Instr): Outcome<State>
    requires GroupOf(ins) == SkipGroup
  {
    match ins
    case SkipEqByte(x, nn) => SkipIf(m, m.v[x] == nn)
    case SkipNeByte(x, nn) => SkipIf(m, m.v[x] != nn)
    case SkipEqReg(x, y) => SkipIf(m, m.v[x] == m.v[y])
    case SkipNeReg(x, y) => SkipIf(m, m.v[x] != m.v[y])
    case SkipKey(x) => if m.v[x] >= NUM_KEYS then Err(KeyOutOfRange(m.v[x])) else SkipIf(m, m.keys[m.v[x]])
    case SkipNoKey(x) => if m.v[x] >= NUM_KEYS then Err(KeyOutOfRange(m.v[x])) else SkipIf(m, !m.keys[m.v[x]])
  }

  /** 6XNN, 7XNN and 8XY0..8XYE, which only write registers and cannot fault. */
  function ArithEffect(m: State, ins: Instr): State
    requires GroupOf(ins) == ArithGroup
  {
    match ins
    case LoadByte(x, nn) => SetV(m, x, nn)
    case AddByte(x, nn) => SetV(m, x, (m.v[x] as int + nn) % 0x100)
    case Move(x, y) => SetV(m, x, m.v[y])
    case Or(x, y) => SetV(m, x, BitOr(m.v[x], m.v[y]))
    case And(x, y) => SetV(m, x, BitAnd(m.v[x], m.v[y]))
    case Xor(x, y) => SetV(m, x, BitXor(m.v[x], m.v[y]))
    case AddReg(x, y) => WithFlagThenV(m, x, m.v[x] as int + m.v[y], if m.v[x] as int + m.v[y] > 0xFF then 1 else 0)
    case SubReg(x, y) => WithFlagThenV(m, x, m.v[x] as int - m.v[y], if m.v[x] < m.v[y] then 0 else 1)
    case ShiftRight(x, _) => WithVThenFlag(m, x, m.v[x] / 2, m.v[x] % 2)
    case SubNeg(x, y) => WithFlagThenV(m, x, m.v[y] as int - m.v[x], if m.v[y] < m.v[x] then 0 else 1)
    case ShiftLeft(x, _) => WithVThenFlag(m, x, m.v[x] as int * 2 % 0x100, m.v[x] / 0x80)
  }

  /** CXNN, FX07, FX0A, FX15, FX18: VX exchanges a value with the random source, the keypad or a timer. */
  function ExchangeEffect(m: State, ins: Instr, rnd: Byte): State
    requires GroupOf(ins) == ExchangeGroup
  {
    match ins
    case Random(x, nn) => SetV(m, x, BitAnd(rnd, nn))
    case GetDelay(x) => SetV(m, x, m.delayTimer)
    case WaitKey(x) =>
      (match FirstPressed(m.keys, 0)
       case None => m
       case Some(k) => SetV(m, x, k))
    case SetDelay(x) => m.(delayTimer := m.v[x])
    case SetSound(x) => m.(soundTimer := m.v[x])
  }

  /** DXYN, FX1E, FX29, FX33, FX55, FX65: the arms that use or move I and read or write memory. */
  function MemoryEffect(m: State, ins: Instr): Outcome<State>
    requires GroupOf(ins) == MemoryGroup
  {
    match ins
    case Draw(x, y, n) => DrawSprite(m, x, y, n)
    case AddIndex(x) => if m.i + m.v[x] > 0xFFFF then Err(AddressOverflow) else Ok(m.(i := m.i + m.v[x]))
    case FontChar(x) => Ok(m.(i := m.v[x] as int * 5))
    case StoreBcd(x) => StoreDigits(m, x)
    case StoreRegs(x) => StoreRegisters(m, x)
    case LoadRegs(x) => LoadRegisters(m, x)
  }

  function SetV(m: State, x: Nibble, b: Byte): State {
    m.(v := m.v[x := b])
  }

  /** 8XY4, 8XY5, 8XY7: the flag is written first, then VX gets the wrapped result. */
  function WithFlagThenV(m: State, x: Nibble, result: int, flag: Byte): State {
    m.(v := m.v[VF := flag][x := result % 0x100])
  }

  /** 8XY6, 8XYE: VX gets the shifted value first, then the flag gets the bit shifted out. */
  function WithVThenFlag(m: State, x: Nibble, shifted: Byte, flag: Byte): State {
    m.(v := m.v[x := shifted][VF := flag])
  }

  /** `pc += 2` when the condition holds; the u16 addition panics on overflow. */
  function SkipIf(m: State, condition: bool): Outcome<State> {
    if !condition then Ok(m)
    else if m.pc + 2 > 0xFFFF then Err(AddressOverflow)
    else Ok(m.(pc := m.pc + 2))
  }

  function Pow2(k: nat): (r: nat)
    ensures r >= 1
  {
    if k == 0 then 1 else 2 * Pow2(k - 1)
  }

  /** Bit k of b, counting from the least significant bit. */
  function Bit(b: nat, k: nat): bool {
    if k == 0 then b % 2 == 1 else Bit(b / 2, k - 1)
  }

  datatype BitOp = OrOp | AndOp | XorOp

  function Apply(op: BitOp, p: bool, q: bool): bool {
    match op
    case OrOp => p || q
    case AndOp => p && q
    case XorOp => p != q
  }

  /** The low `w` bits of a and b combined bit by bit with `op`. */
  function Bitwise(op: BitOp, a: nat, b: nat, w: nat): (r: nat)
    ensures r < Pow2(w)
  {
    if w == 0 then 0
    else Bitwise(op, a / 2, b / 2, w - 1) * 2 + (if Apply(op, a % 2 == 1, b % 2 == 1) then 1 else 0)
  }

  /** The width of a u8. */
  function ByteWidth(): (w: nat)
    ensures Pow2(w) == 0x100
  {
    8
  }

  /** Rust's `|`, `&` and `^` on u8. */
  function BitOr(a: Byte, b: Byte): Byte { Bitwise(OrOp, a, b, ByteWidth()) }
  function BitAnd(a: Byte, b: Byte): Byte { Bitwise(AndOp, a, b, ByteWidth()) }
  function BitXor(a: Byte, b: Byte): Byte { Bitwise(XorOp, a, b, ByteWidth()) }

  /** The lowest pressed key at or after `from`, as `keys.iter().enumerate().find(..)` gives it. */
  function FirstPressed(keys: seq<bool>, from: nat): (r: Option<nat>)
    requires from <= |keys|
    ensures r.Some? ==> from <= r.value < |keys| && keys[r.value]
    ensures r.Some? ==> forall k :: from <= k < r.value ==> !keys[k]
    ensures r.None? ==> forall k :: from <= k < |keys| ==> !keys[k]
    decreases |keys| - from
  {
    if from == |keys| then None
    else if keys[from] then Some(from)
    else FirstPressed(keys, from + 1)
  }

  /** FX33: the hundreds, tens and ones digits of VX at I, I+1 and I+2. */
  function StoreDigits(m: State, x: Nibble): Outcome<State> {
    if m.i + 2 >= RAM_SIZE then Err(MemoryOutOfBounds)
    else
      var vx := m.v[x];
      Ok(m.(memory := m.memory[m.i := vx / 100][m.i + 1 := vx / 10 % 10][m.i + 2 := vx % 10]))
  }

  /** FX55: V0..VX into memory[I..I+X]; the loop's index panics past the end of memory. */
  function StoreRegisters(m: State, x: Nibble): Outcome<State> {
    if m.i + x >= RAM_SIZE then Err(MemoryOutOfBounds)
    else Ok(m.(memory := m.memory[..m.i] + m.v[..x + 1] + m.memory[m.i + x + 1..]))
  }

  /** FX65: memory[I..I+X] into V0..VX. */
  function LoadRegisters(m: State, x: Nibble): Outcome<State> {
    if m.i + x >= RAM_SIZE then Err(MemoryOutOfBounds)
    else Ok(m.(v := m.memory[m.i..m.i + x + 1] + m.v[x + 1..]))
  }

  // ---------------------------------------------------------------- DXYN

  /** `sprite_byte & (0b10000000 >> j) != 0`: bit j of a sprite row, counted from the left. */
  predicate SpriteBit(b: Byte, j: int)
    requires 0 <= j < 8
  {
    (b as bv8) & ((0x80 as bv8) >> j) != 0
  }

  /** Some bit of the sprite row is set, so the draw loop computes a screen index for it. */
  predicate HasSetBit(b: Byte) {
    exists j :: 0 <= j < 8 && SpriteBit(b, j)
  }

  /**
   * The screen index the draw loop computes for sprite row `row`, column `col`:
   * both coordinates are wrapped modulo SCREEN_WIDTH, the vertical one too.
   */
  function PixelIndex(vx: Byte, vy: Byte, row: nat, col: nat): nat {
    (vx + col) % SCREEN_WIDTH + SCREEN_WIDTH * ((vy + row) % SCREEN_WIDTH)
  }

  /** The sprite row whose wrapped vertical coordinate is that of screen cell k. */
  function RowAt(vy: Byte, k: nat): nat {
    (k / SCREEN_WIDTH - vy) % SCREEN_WIDTH
  }

  /** The sprite column whose wrapped horizontal coordinate is that of screen cell k. */
  function ColAt(vx: Byte, k: nat): nat {
    (k % SCREEN_WIDTH - vx) % SCREEN_WIDTH
  }

  /** Screen cell k lies under a set bit of the N-row sprite at memory[base..]. */
  predicate Covered(mem: seq<Byte>, base: nat, vx: Byte, vy: Byte, n: nat, k: nat)
    requires |mem| == RAM_SIZE
  {
    var row, col := RowAt(vy, k), ColAt(vx, k);
    row < n && col < 8 && base + row < RAM_SIZE && SpriteBit(mem[base + row], col)
  }

  /**
   * The first panic the draw loop meets from sprite row `row` on: the u16
   * sum `i_reg + row` overflowing, reading memory[base + row] past the end of
   * memory, or a set bit whose screen
   * index is past the screen (its wrapped vertical coordinate is 32 or more).
   */
  function DrawFault(mem: seq<Byte>, base: nat, vy: Byte, n: nat, row: nat): (r: Option<Fault>)
    requires |mem| == RAM_SIZE
    ensures r.Some? ==> r.value in {AddressOverflow, MemoryOutOfBounds, ScreenOutOfBounds}
    decreases n - row
  {
    if row >= n then None
    else if base + row > 0xFFFF then Some(AddressOverflow)
    else if base + row >= RAM_SIZE then Some(MemoryOutOfBounds)
    else if HasSetBit(mem[base + row]) && (vy + row) % SCREEN_WIDTH >= SCREEN_HEIGHT then Some(ScreenOutOfBounds)
    else DrawFault(mem, base, vy, n, row + 1)
  }

  /** Some screen cell under a set bit of the sprite is on. */
  predicate Collision(mem: seq<Byte>, base: nat, vx: Byte, vy: Byte, n: nat, screen: seq<bool>)
    requires |mem| == RAM_SIZE && |screen| == SCREEN_SIZE
  {
    exists k :: 0 <= k < SCREEN_SIZE && Covered(mem, base, vx, vy, n, k) && screen[k]
  }

  /** The screen with every cell under a set bit of the sprite toggled. */
  function XorSprite(mem: seq<Byte>, base: nat, vx: Byte, vy: Byte, n: nat, screen: seq<bool>): (r: seq<bool>)
    requires |mem| == RAM_SIZE && |screen| == SCREEN_SIZE
    ensures |r| == SCREEN_SIZE
  {
    seq(SCREEN_SIZE, k requires 0 <= k < SCREEN_SIZE => screen[k] != Covered(mem, base, vx, vy, n, k))
  }

  /** DXYN: XOR the sprite onto the screen; VF = 1 exactly when a pixel that was on is toggled. */
  function DrawSprite(m: State, x: Nibble, y: Nibble, n: Nibble): Outcome<State> {
    var vx, vy := m.v[x], m.v[y];
    match DrawFault(m.memory, m.i, vy, n, 0)
    case Some(f) => Err(f)
    case None =>
      Ok(m.(screen := XorSprite(m.memory, m.i, vx, vy, n, m.screen),
            v := m.v[VF := if Collision(m.memory, m.i, vx, vy, n, m.screen) then 1 else 0]))
  }
}
