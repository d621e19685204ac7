/**
 * The `Chip8` struct as a class over arrays, its methods updating the arrays
 * and registers in place as the Rust code does. Every method is proved
 * against the value-level semantics: the machine it leaves behind is the one
 * the matching function computes from the machine it started from, and it
 * reports exactly the fault that function reports.
 */
module Chip8Interpreter {
  import opened Chip8Types
  import opened Chip8Decode
  import opened Chip8Semantics
  import Chip8Properties

  class Chip8 {
    const memory: array<Byte>
    const v: array<Byte>
    var i: Word
    var sp: Word
    var pc: Word
    const stack: array<Word>
    var delayTimer: Byte
    var soundTimer: Byte
    const keys: array<bool>
    const screen: array<bool>
    var opcode: Word

    /** The arrays have the struct's fixed sizes and no two of them are the same array. */
    ghost predicate Valid()
      reads this
    {
      memory.Length == RAM_SIZE && v.Length == NUM_REGS && stack.Length == STACK_SIZE &&
      keys.Length == NUM_KEYS && screen.Length == SCREEN_SIZE &&
      memory != v && keys != screen
    }

    /** The object's fields as a machine value. */
    ghost function State(): State
      reads this, memory, v, stack, keys, screen
      requires Valid()
    {
      Machine(memory[..], v[..], i, sp, pc, stack[..], delayTimer, soundTimer, keys[..], screen[..], opcode)
    }

    /** The object holds the outcome's machine and reports no fault, or reports the outcome's fault. */
    ghost predicate Matches(o: Outcome<State>, fault: Option<Fault>)
      reads this, memory, v, stack, keys, screen
      requires Valid()
    {
      match o
      case Ok(s) => fault == None && State() == s
      case Err(f) => fault == Some(f)
    }

    /** `Chip8::new`: everything zero, PC at 0x200, the font copied to the start of memory. */
    constructor ()
      ensures Valid()
      ensures fresh(memory) && fresh(v) && fresh(stack) && fresh(keys) && fresh(screen)
      ensures State() == Initial()
    {
      memory := new Byte[RAM_SIZE](_ => 0);
      sp := 0;
      pc := START_ADDR;
      v := new Byte[NUM_REGS](_ => 0);
      i := 0;
      stack := new Word[STACK_SIZE](_ => 0);
      delayTimer := 0;
      keys := new bool[NUM_KEYS](_ => false);
      soundTimer := 0;
      screen := new bool[SCREEN_SIZE](_ => false);
      opcode := 0;
      new;
      forall k | 0 <= k < FONTSET_SIZE {
        memory[k] := FONTSET[k];
      }
      assert memory[..] == Initial().memory;
    }

    /** `load_rom`: the ROM goes to memory[0x200..]; a ROM that does not fit is refused before anything is written. */
    method LoadRom(rom: seq<Byte>) returns (fault: Option<Fault>)
      requires Valid()
      modifies memory
      ensures Valid()
      ensures Matches(Chip8Semantics.LoadRom(old(State()), rom), fault)
      ensures fault.Some? ==> unchanged(memory)
    {
      if START_ADDR + |rom| > RAM_SIZE {
        return Some(RomTooLarge(|rom|));
      }
      forall k | 0 <= k < |rom| {
        memory[START_ADDR + k] := rom[k];
      }
      assert memory[..] == old(memory[..])[..START_ADDR] + rom + old(memory[..])[START_ADDR + |rom|..];
      return None;
    }

    /** `push_to_stack`. */
    method PushToStack(value: Word) returns (fault: Option<Fault>)
      requires Valid()
      modifies this`sp, stack
      ensures Valid()
      ensures Matches(Push(old(State()), value), fault)
    {
      if sp >= STACK_SIZE {
        return Some(StackOverflow);
      }
      stack[sp] := value;
      sp := sp + 1;
      return None;
    }

    /** `pop_from_stack`: the popped slot is zeroed. */
    method PopFromStack() returns (value: Word, fault: Option<Fault>)
      requires Valid()
      modifies this`sp, stack
      ensures Valid()
      ensures match Pop(old(State()))
        case Ok(p) => fault == None && value == p.value && State() == p.next
        case Err(f) => fault == Some(f)
    {
      if sp == 0 {
        return 0, Some(StackUnderflow);
      }
      sp := sp - 1;
      if sp >= STACK_SIZE {
        return 0, Some(StackOverflow);
      }
      value := stack[sp];
      stack[sp] := 0;
      return value, None;
    }

    /** `reset`: the struct returns to the state of `new`, except that memory past the font keeps the ROM. */
    method Reset()
      requires Valid()
      modifies this, memory, v, stack, keys, screen
      ensures Valid()
      ensures State() == Chip8Semantics.Reset(old(State()))
    {
      pc := START_ADDR;
      sp := 0;
      i := 0;
      soundTimer := 0;
      delayTimer := 0;
      InstallFont();
      ClearRegisters();
      ClearScreen();
      opcode := 0;
    }

    /** The font goes back to memory[0..80]; the rest of memory keeps what it held. */
    method InstallFont()
      requires Valid()
      modifies memory
      ensures Valid()
      ensures State() == old(State()).(memory := FONTSET + old(memory[..])[FONTSET_SIZE..])
    {
      forall k | 0 <= k < FONTSET_SIZE {
        memory[k] := FONTSET[k];
      }
      assert memory[..] == FONTSET + old(memory[..])[FONTSET_SIZE..];
    }

    /** Registers, stack and keypad all zero. */
    method ClearRegisters()
      requires Valid()
      modifies v, stack, keys
      ensures Valid()
      ensures State() == old(State()).(v := seq(NUM_REGS, _ => 0), stack := seq(STACK_SIZE, _ => 0),
                                       keys := seq(NUM_KEYS, _ => false))
    {
      forall k | 0 <= k < NUM_REGS {
        v[k] := 0;
      }
      forall k | 0 <= k < STACK_SIZE {
        stack[k] := 0;
      }
      forall k | 0 <= k < NUM_KEYS {
        keys[k] := false;
      }
    }

    /** `key_press`: one key flag; an index past the keypad is refused. */
    method KeyPress(key: nat, pressed: bool) returns (fault: Option<Fault>)
      requires Valid()
      modifies keys
      ensures Valid()
      ensures Matches(Chip8Semantics.KeyPress(old(State()), key, pressed), fault)
    {
      if key >= NUM_KEYS {
        return Some(KeyOutOfRange(key));
      }
      keys[key] := pressed;
      return None;
    }

    /** `fetch_instruction`: the big-endian opcode at PC; PC moves on by 2. */
    method FetchInstruction() returns (op: Word, fault: Option<Fault>)
      requires Valid()
      modifies this`pc
      ensures Valid()
      ensures match Fetch(old(State()))
        case Ok(f) => fault == None && op == f.op && State() == f.next
        case Err(e) => fault == Some(e)
    {
      if pc + 1 >= RAM_SIZE {
        return 0, Some(MemoryOutOfBounds);
      }
      var firstByte := memory[pc];
      var secondByte := memory[pc + 1];
      op := BigEndian(firstByte, secondByte);
      pc := pc + 2;
      return op, None;
    }

    /** `execute_instruction`: decode the opcode and run it; an opcode outside the match is fatal. */
    method ExecuteInstruction(op: Word, rnd: Byte) returns (fault: Option<Fault>)
      requires Valid()
      modifies this, memory, v, stack, screen
      ensures Valid()
      ensures Matches(Execute(old(State()), op, rnd), fault)
      ensures Decode(op).None? ==> State() == old(State())
    {
      match Decode(op)
      case None =>
        return Some(InvalidOpcode(op));
      case Some(ins) =>
        fault := RunInstruction(ins, rnd);
    }

    /** One cycle of the host loop: fetch, then execute. */
    method Step(rnd: Byte) returns (fault: Option<Fault>)
      requires Valid()
      modifies this, memory, v, stack, screen
      ensures Valid()
      ensures Matches(Chip8Semantics.Step(old(State()), rnd), fault)
    {
      var op;
      op, fault := FetchInstruction();
      if fault.Some? {
        return;
      }
      fault := ExecuteInstruction(op, rnd);
    }

    /** The arms of the opcode match, by group. */
    method RunInstruction(ins: Instr, rnd: Byte) returns (fault: Option<Fault>)
      requires Valid()
      modifies this, memory, v, stack, screen
      ensures Valid()
      ensures Matches(Run(old(State()), ins, rnd), fault)
    {
      match GroupOf(ins)
      case ControlGroup => fault := RunControl(ins);
      case SkipGroup => fault := RunSkip(ins);
      case ArithGroup => RunArith(ins); fault := None;
      case ExchangeGroup => RunExchange(ins, rnd); fault := None;
      case MemoryGroup => fault := RunMemory(ins);
    }

    /** 0000, 00E0, 00EE, 1NNN, 2NNN, ANNN, BNNN. */
    method RunControl(ins: Instr) returns (fault: Option<Fault>)
      requires Valid()
      requires GroupOf(ins) == ControlGroup
      modifies this`pc, this`sp, this`i, stack, screen
      ensures Valid()
      ensures Matches(ControlEffect(old(State()), ins), fault)
    {
      fault := None;
      match ins
      case Nop =>
      case ClearScreen => ClearScreen();
      case Return => fault := ExecReturn();
      case Jump(a) => ExecJump(a);
      case Call(a) => fault := ExecCall(a);
      case LoadIndex(a) => ExecLoadIndex(a);
      case JumpOffset(a) => ExecJumpOffset(a);
    }

    /** 3XNN, 4XNN, 5XY0, 9XY0, EX9E, EXA1. */
    method RunSkip(ins: Instr) returns (fault: Option<Fault>)
      requires Valid()
      requires GroupOf(ins) == SkipGroup
      modifies this`pc
      ensures Valid()
      ensures Matches(SkipEffect(old(State()), ins), fault)
    {
      match ins
      case SkipEqByte(x, nn) => fault := SkipIf(v[x] == nn);
      case SkipNeByte(x, nn) => fault := SkipIf(v[x] != nn);
      case SkipEqReg(x, y) => fault := SkipIf(v[x] == v[y]);
      case SkipNeReg(x, y) => fault := SkipIf(v[x] != v[y]);
      case SkipKey(x) => fault := ExecSkipKey(x);
      case SkipNoKey(x) => fault := ExecSkipNoKey(x);
    }

    /** 6XNN, 7XNN, 8XY0..8XYE. */
    method RunArith(ins: Instr)
      requires Valid()
      requires GroupOf(ins) == ArithGroup
      modifies v
      ensures Valid()
      ensures State() == ArithEffect(old(State()), ins)
    {
      match ins
      case LoadByte(x, nn) => ExecLoadByte(x, nn);
      case AddByte(x, nn) => ExecAddByte(x, nn);
      case Move(x, y) => ExecMove(x, y);
      case Or(x, y) => ExecOr(x, y);
      case And(x, y) => ExecAnd(x, y);
      case Xor(x, y) => ExecXor(x, y);
      case AddReg(x, y) => ExecAddReg(x, y);
      case SubReg(x, y) => ExecSubReg(x, y);
      case ShiftRight(x, y) => ExecShiftRight(x, y);
      case SubNeg(x, y) => ExecSubNeg(x, y);
      case ShiftLeft(x, y) => ExecShiftLeft(x, y);
    }

    /** CXNN, FX07, FX0A, FX15, FX18. */
    method RunExchange(ins: Instr, rnd: Byte)
      requires Valid()
      requires GroupOf(ins) == ExchangeGroup
      modifies this`delayTimer, this`soundTimer, v
      ensures Valid()
      ensures State() == ExchangeEffect(old(State()), ins, rnd)
    {
      match ins
      case Random(x, nn) => ExecRandom(x, nn, rnd);
      case GetDelay(x) => ExecGetDelay(x);
      case WaitKey(x) => ExecWaitKey(x);
      case SetDelay(x) => ExecSetDelay(x);
      case SetSound(x) => ExecSetSound(x);
    }

    /** DXYN, FX1E, FX29, FX33, FX55, FX65. */
    method RunMemory(ins: Instr) returns (fault: Option<Fault>)
      requires Valid()
      requires GroupOf(ins) == MemoryGroup
      modifies this`i, memory, v, screen
      ensures Valid()
      ensures Matches(MemoryEffect(old(State()), ins), fault)
    {
      fault := None;
      match ins
      case Draw(x, y, n) => fault := ExecDraw(x, y, n);
      case AddIndex(x) => fault := ExecAddIndex(x);
      case FontChar(x) => ExecFontChar(x);
      case StoreBcd(x) => fault := ExecStoreBcd(x);
      case StoreRegs(x) => fault := ExecStoreRegs(x);
      case LoadRegs(x) => fault := ExecLoadRegs(x);
    }

    /** 00E0: every pixel off. */
    method ClearScreen()
      requires Valid()
      modifies screen
      ensures Valid()
      ensures State() == old(State()).(screen := seq(SCREEN_SIZE, _ => false))
    {
      forall k | 0 <= k < SCREEN_SIZE {
        screen[k] := false;
      }
    }

    /** `self.pc += 2` under a condition; the u16 addition panics on overflow. */
    method SkipIf(condition: bool) returns (fault: Option<Fault>)
      requires Valid()
      modifies this`pc
      ensures Valid()
      ensures Matches(Chip8Semantics.SkipIf(old(State()), condition), fault)
    {
      if condition {
        if pc + 2 > 0xFFFF {
          return Some(AddressOverflow);
        }
        pc := pc + 2;
      }
      return None;
    }

    /** 00EE: PC = the address popped from the stack. */
    method ExecReturn() returns (fault: Option<Fault>)
      requires Valid()
      modifies this`pc, this`sp, stack
      ensures Valid()
      ensures Matches(ControlEffect(old(State()), Return), fault)
    {
      var addr;
      addr, fault := PopFromStack();
      if fault.None? {
        pc := addr;
      }
    }

    /** 1NNN: PC = NNN. */
    method ExecJump(a: Addr)
      requires Valid()
      modifies this`pc
      ensures Valid()
      ensures ControlEffect(old(State()), Jump(a)) == Ok(State())
    {
      pc := a;
    }

    /** 2NNN: push PC, then PC = NNN. */
    method ExecCall(a: Addr) returns (fault: Option<Fault>)
      requires Valid()
      modifies this`pc, this`sp, stack
      ensures Valid()
      ensures Matches(ControlEffect(old(State()), Call(a)), fault)
    {
      fault := PushToStack(pc);
      if fault.None? {
        pc := a;
      }
    }

    /** 6XNN: VX = NN. */
    method ExecLoadByte(x: Nibble, nn: Byte)
      requires Valid()
      modifies v
      ensures Valid()
      ensures State() == ArithEffect(old(State()), LoadByte(x, nn))
    {
      v[x] := nn;
    }

    /** 7XNN: VX = VX + NN, wrapping; VF is not touched. */
    method ExecAddByte(x: Nibble, nn: Byte)
      requires Valid()
      modifies v
      ensures Valid()
      ensures State() == ArithEffect(old(State()), AddByte(x, nn))
    {
      v[x] := (v[x] as int + nn) % 0x100;
    }

    /** 8XY0: VX = VY. */
    method ExecMove(x: Nibble, y: Nibble)
      requires Valid()
      modifies v
      ensures Valid()
      ensures State() == ArithEffect(old(State()), Move(x, y))
    {
      v[x] := v[y];
    }

    /** 8XY1: VX |= VY. */
    method ExecOr(x: Nibble, y: Nibble)
      requires Valid()
      modifies v
      ensures Valid()
      ensures State() == ArithEffect(old(State()), Or(x, y))
    {
      v[x] := BitOr(v[x], v[y]);
    }

    /** 8XY2: VX &= VY. */
    method ExecAnd(x: Nibble, y: Nibble)
      requires Valid()
      modifies v
      ensures Valid()
      ensures State() == ArithEffect(old(State()), And(x, y))
    {
      v[x] := BitAnd(v[x], v[y]);
    }

    /** 8XY3: VX ^= VY. */
    method ExecXor(x: Nibble, y: Nibble)
      requires Valid()
      modifies v
      ensures Valid()
      ensures State() == ArithEffect(old(State()), Xor(x, y))
    {
      v[x] := BitXor(v[x], v[y]);
    }

    /** 8XY4: `overflowing_add`; the carry goes to VF before the sum goes to VX. */
    method ExecAddReg(x: Nibble, y: Nibble)
      requires Valid()
      modifies v
      ensures Valid()
      ensures State() == ArithEffect(old(State()), AddReg(x, y))
    {
      var sum := v[x] as int + v[y];
      v[VF] := if sum > 0xFF then 1 else 0;
      v[x] := sum % 0x100;
    }

    /** 8XY5: `overflowing_sub`; VF = NOT borrow is written before the difference goes to VX. */
    method ExecSubReg(x: Nibble, y: Nibble)
      requires Valid()
      modifies v
      ensures Valid()
      ensures State() == ArithEffect(old(State()), SubReg(x, y))
    {
      var borrow := v[x] < v[y];
      var diff := v[x] as int - v[y];
      v[VF] := if borrow then 0 else 1;
      v[x] := diff % 0x100;
    }

    /** 8XY6: VX >>= 1, then VF = the bit shifted out; VY is not read. */
    method ExecShiftRight(x: Nibble, y: Nibble)
      requires Valid()
      modifies v
      ensures Valid()
      ensures State() == ArithEffect(old(State()), ShiftRight(x, y))
    {
      var lsb := v[x] % 2;
      v[x] := v[x] / 2;
      v[VF] := lsb;
    }

    /** 8XY7: VX = VY - VX; VF = NOT borrow is written first. */
    method ExecSubNeg(x: Nibble, y: Nibble)
      requires Valid()
      modifies v
      ensures Valid()
      ensures State() == ArithEffect(old(State()), SubNeg(x, y))
    {
      var borrow := v[y] < v[x];
      var diff := v[y] as int - v[x];
      v[VF] := if borrow then 0 else 1;
      v[x] := diff % 0x100;
    }

    /** 8XYE: VX <<= 1, then VF = the bit shifted out; VY is not read. */
    method ExecShiftLeft(x: Nibble, y: Nibble)
      requires Valid()
      modifies v
      ensures Valid()
      ensures State() == ArithEffect(old(State()), ShiftLeft(x, y))
    {
      var msb := v[x] / 0x80;
      v[x] := v[x] as int * 2 % 0x100;
      v[VF] := msb;
    }

    /** ANNN: I = NNN. */
    method ExecLoadIndex(a: Addr)
      requires Valid()
      modifies this`i
      ensures Valid()
      ensures ControlEffect(old(State()), LoadIndex(a)) == Ok(State())
    {
      i := a;
    }

    /** BNNN: PC = NNN `wrapping_add` V0. */
    method ExecJumpOffset(a: Addr)
      requires Valid()
      modifies this`pc
      ensures Valid()
      ensures ControlEffect(old(State()), JumpOffset(a)) == Ok(State())
    {
      pc := (a + v[0]) % 0x1_0000;
    }

    /** CXNN: VX = random byte & NN; the byte is `rnd`. */
    method ExecRandom(x: Nibble, nn: Byte, rnd: Byte)
      requires Valid()
      modifies v
      ensures Valid()
      ensures State() == ExchangeEffect(old(State()), Random(x, nn), rnd)
    {
      v[x] := BitAnd(rnd, nn);
    }

    /** EX9E: skip when the key named by VX is down. */
    method ExecSkipKey(x: Nibble) returns (fault: Option<Fault>)
      requires Valid()
      modifies this`pc
      ensures Valid()
      ensures Matches(SkipEffect(old(State()), SkipKey(x)), fault)
    {
      if v[x] >= NUM_KEYS {
        return Some(KeyOutOfRange(v[x]));
      }
      fault := SkipIf(keys[v[x]]);
    }

    /** EXA1: skip when the key named by VX is up. */
    method ExecSkipNoKey(x: Nibble) returns (fault: Option<Fault>)
      requires Valid()
      modifies this`pc
      ensures Valid()
      ensures Matches(SkipEffect(old(State()), SkipNoKey(x)), fault)
    {
      if v[x] >= NUM_KEYS {
        return Some(KeyOutOfRange(v[x]));
      }
      fault := SkipIf(!keys[v[x]]);
    }

    /** FX07: VX = delay timer. */
    method ExecGetDelay(x: Nibble)
      requires Valid()
      modifies v
      ensures Valid()
      ensures State() == ExchangeEffect(old(State()), GetDelay(x), 0)
    {
      v[x] := delayTimer;
    }

    /** FX0A: VX = the lowest pressed key; with no key down nothing happens. */
    method ExecWaitKey(x: Nibble)
      requires Valid()
      modifies v
      ensures Valid()
      ensures State() == ExchangeEffect(old(State()), WaitKey(x), 0)
    {
      var key := FindPressedKey();
      if key.Some? {
        v[x] := key.value;
      }
    }

    /** FX15: delay timer = VX. */
    method ExecSetDelay(x: Nibble)
      requires Valid()
      modifies this`delayTimer
      ensures Valid()
      ensures State() == ExchangeEffect(old(State()), SetDelay(x), 0)
    {
      delayTimer := v[x];
    }

    /** FX18: sound timer = VX. */
    method ExecSetSound(x: Nibble)
      requires Valid()
      modifies this`soundTimer
      ensures Valid()
      ensures State() == ExchangeEffect(old(State()), SetSound(x), 0)
    {
      soundTimer := v[x];
    }

    /** FX1E: I += VX; the u16 addition panics on overflow. */
    method ExecAddIndex(x: Nibble) returns (fault: Option<Fault>)
      requires Valid()
      modifies this`i
      ensures Valid()
      ensures Matches(MemoryEffect(old(State()), AddIndex(x)), fault)
    {
      if i + v[x] > 0xFFFF {
        return Some(AddressOverflow);
      }
      i := i + v[x];
      return None;
    }

    /** FX29: I = VX * 5, the address of the glyph for digit VX. */
    method ExecFontChar(x: Nibble)
      requires Valid()
      modifies this`i
      ensures Valid()
      ensures MemoryEffect(old(State()), FontChar(x)) == Ok(State())
    {
      i := v[x] as int * 5;
    }

    /** FX0A's search: the lowest key that is down, or none. */
    method FindPressedKey() returns (key: Option<nat>)
      requires Valid()
      ensures key.Some? ==> key.value < NUM_KEYS && keys[key.value] && forall k :: 0 <= k < key.value ==> !keys[k]
      ensures key.None? ==> forall k :: 0 <= k < NUM_KEYS ==> !keys[k]
      ensures key == FirstPressed(keys[..], 0)
    {
      var k: nat := 0;
      while k < NUM_KEYS
        invariant 0 <= k <= NUM_KEYS
        invariant forall j :: 0 <= j < k ==> !keys[j]
      {
        if keys[k] {
          return Some(k);
        }
        k := k + 1;
      }
      return None;
    }

    /** FX33: hundreds, tens and ones of VX at I, I+1, I+2, written in that order. */
    method ExecStoreBcd(x: Nibble) returns (fault: Option<Fault>)
      requires Valid()
      modifies memory
      ensures Valid()
      ensures Matches(StoreDigits(old(State()), x), fault)
    {
      var vx := v[x];
      if i >= RAM_SIZE {
        return Some(MemoryOutOfBounds);
      }
      memory[i] := vx / 100;
      if i + 1 >= RAM_SIZE {
        return Some(MemoryOutOfBounds);
      }
      memory[i + 1] := vx / 10 % 10;
      if i + 2 >= RAM_SIZE {
        return Some(MemoryOutOfBounds);
      }
      memory[i + 2] := vx % 10;
      return None;
    }

    /** FX55: `for j in 0..=x { memory[i + j] = v[j] }`. */
    method ExecStoreRegs(x: Nibble) returns (fault: Option<Fault>)
      requires Valid()
      modifies memory
      ensures Valid()
      ensures Matches(Chip8Semantics.StoreRegisters(old(State()), x), fault)
    {
      var j := 0;
      while j <= x
        invariant 0 <= j <= x + 1
        invariant j > 0 ==> i + j - 1 < RAM_SIZE
        invariant forall a :: 0 <= a < RAM_SIZE ==> memory[a] == if i <= a < i + j then v[a - i] else old(memory[a])
      {
        if i + j >= RAM_SIZE {
          return Some(MemoryOutOfBounds);
        }
        memory[i + j] := v[j];
        j := j + 1;
      }
      ghost var stored := old(memory[..])[..i] + v[..x + 1] + old(memory[..])[i + x + 1..];
      forall a | 0 <= a < RAM_SIZE
        ensures memory[a] == stored[a]
      {
        if i <= a <= i + x {
          assert stored[a] == v[a - i];
        }
      }
      assert memory[..] == stored;
      return None;
    }

    /** FX65: `for j in 0..=x { v[j] = memory[i + j] }`. */
    method ExecLoadRegs(x: Nibble) returns (fault: Option<Fault>)
      requires Valid()
      modifies v
      ensures Valid()
      ensures Matches(Chip8Semantics.LoadRegisters(old(State()), x), fault)
    {
      var j := 0;
      while j <= x
        invariant 0 <= j <= x + 1
        invariant j > 0 ==> i + j - 1 < RAM_SIZE
        invariant forall k :: 0 <= k < NUM_REGS ==> v[k] == if k < j then memory[i + k] else old(v[k])
      {
        if i + j >= RAM_SIZE {
          return Some(MemoryOutOfBounds);
        }
        v[j] := memory[i + j];
        j := j + 1;
      }
      ghost var loaded := memory[i..i + x + 1] + old(v[..])[x + 1..];
      forall k | 0 <= k < NUM_REGS
        ensures v[k] == loaded[k]
      {
        if k <= x {
          assert loaded[k] == memory[i + k];
        }
      }
      assert v[..] == loaded;
      return None;
    }

    /**
     * DXYN: for each sprite row and each set bit, XOR the pixel at the wrapped
     * coordinates and remember whether it was on; VF is written afterwards.
     */
    method ExecDraw(x: Nibble, y: Nibble, n: Nibble) returns (fault: Option<Fault>)
      requires Valid()
      modifies v, screen
      ensures Valid()
      ensures Matches(Chip8Semantics.DrawSprite(old(State()), x, y, n), fault)
    {
      ghost var m := State();
      var xCoord := v[x];
      var yCoord := v[y];
      var flipped := false;
      var row := 0;
      while row < n
        invariant 0 <= row <= n
        invariant v[..] == m.v
        invariant DrawFault(m.memory, i, yCoord, n, 0) == DrawFault(m.memory, i, yCoord, n, row)
        invariant forall k :: 0 <= k < SCREEN_SIZE ==>
          screen[k] == (m.screen[k] != Drawn(m.memory, i, xCoord, yCoord, n, row, 0, k))
        invariant flipped == Collided(m.memory, i, xCoord, yCoord, n, row, 0, m.screen)
      {
        if i + row > 0xFFFF {
          return Some(AddressOverflow);
        }
        if i + row >= RAM_SIZE {
          return Some(MemoryOutOfBounds);
        }
        var spriteByte := memory[i + row];
        flipped, fault := DrawRow(m, xCoord, yCoord, n, row, spriteByte, flipped);
        if fault.Some? {
          return;
        }
        row := row + 1;
      }
      fault := None;
      if flipped {
        v[VF] := 1;
      } else {
        v[VF] := 0;
      }
      assert screen[..] == XorSprite(m.memory, m.i, m.v[x], m.v[y], n, m.screen);
      assert flipped == Collision(m.memory, m.i, m.v[x], m.v[y], n, m.screen);
    }

    /** The column loop of DXYN for sprite row `row`, whose byte is `spriteByte`. */
    method DrawRow(ghost m: State, xCoord: Byte, yCoord: Byte, n: Nibble, row: nat, spriteByte: Byte, flippedBefore: bool)
      returns (flipped: bool, fault: Option<Fault>)
      requires Valid() && m.memory == memory[..] && m.i == i
      requires row < n && i + row < RAM_SIZE && spriteByte == memory[i + row]
      requires forall k :: 0 <= k < SCREEN_SIZE ==>
        screen[k] == (m.screen[k] != Drawn(m.memory, i, xCoord, yCoord, n, row, 0, k))
      requires flippedBefore == Collided(m.memory, i, xCoord, yCoord, n, row, 0, m.screen)
      modifies screen
      ensures Valid()
      ensures fault.Some? ==>
        fault == Some(ScreenOutOfBounds) && HasSetBit(spriteByte) && (yCoord + row) % SCREEN_WIDTH >= SCREEN_HEIGHT
      ensures fault.None? ==> HasSetBit(spriteByte) ==> (yCoord + row) % SCREEN_WIDTH < SCREEN_HEIGHT
      ensures fault.None? ==> forall k :: 0 <= k < SCREEN_SIZE ==>
        screen[k] == (m.screen[k] != Drawn(m.memory, i, xCoord, yCoord, n, row + 1, 0, k))
      ensures fault.None? ==> flipped == Collided(m.memory, i, xCoord, yCoord, n, row + 1, 0, m.screen)
    {
      flipped := flippedBefore;
      var col := 0;
      while col < 8
        invariant 0 <= col <= 8
        invariant forall j :: 0 <= j < col && SpriteBit(spriteByte, j) ==> (yCoord + row) % SCREEN_WIDTH < SCREEN_HEIGHT
        invariant forall k :: 0 <= k < SCREEN_SIZE ==>
          screen[k] == (m.screen[k] != Drawn(m.memory, i, xCoord, yCoord, n, row, col, k))
        invariant flipped == Collided(m.memory, i, xCoord, yCoord, n, row, col, m.screen)
      {
        if SpriteBit(spriteByte, col) {
          var px := (xCoord + col) % SCREEN_WIDTH;
          var py := (yCoord + row) % SCREEN_WIDTH;
          var idx := px + SCREEN_WIDTH * py;
          if idx >= SCREEN_SIZE {
            return flipped, Some(ScreenOutOfBounds);
          }
          Chip8Properties.CellOfPixelIndex(xCoord, yCoord, row, col);
          forall k | 0 <= k < SCREEN_SIZE
            ensures Drawn(m.memory, i, xCoord, yCoord, n, row, col + 1, k) ==
                    (Drawn(m.memory, i, xCoord, yCoord, n, row, col, k) || k == idx)
          {
            DrawnNext(m.memory, i, xCoord, yCoord, n, row, col, k);
          }
          flipped := flipped || screen[idx];
          screen[idx] := !screen[idx];
        } else {
          forall k | 0 <= k < SCREEN_SIZE
            ensures Drawn(m.memory, i, xCoord, yCoord, n, row, col + 1, k) ==
                    Drawn(m.memory, i, xCoord, yCoord, n, row, col, k)
          {
            DrawnNext(m.memory, i, xCoord, yCoord, n, row, col, k);
          }
        }
        col := col + 1;
      }
      forall k | 0 <= k < SCREEN_SIZE
        ensures Drawn(m.memory, i, xCoord, yCoord, n, row, 8, k) == Drawn(m.memory, i, xCoord, yCoord, n, row + 1, 0, k)
      {
      }
      return flipped, None;
    }
  }

  /** Screen cell k has been toggled once the DXYN loops reach sprite row `row`, column `col`. */
  ghost predicate Drawn(mem: seq<Byte>, base: nat, vx: Byte, vy: Byte, n: nat, row: nat, col: nat, k: nat)
    requires |mem| == RAM_SIZE
  {
    Covered(mem, base, vx, vy, n, k) && (RowAt(vy, k) < row || (RowAt(vy, k) == row && ColAt(vx, k) < col))
  }

  /** Some pixel toggled so far was on in the screen `before` the draw. */
  ghost predicate Collided(mem: seq<Byte>, base: nat, vx: Byte, vy: Byte, n: nat, row: nat, col: nat, before: seq<bool>)
    requires |mem| == RAM_SIZE && |before| == SCREEN_SIZE
  {
    exists k :: 0 <= k < SCREEN_SIZE && Drawn(mem, base, vx, vy, n, row, col, k) && before[k]
  }

  /** One step of the column loop adds the pixel of bit `col`, if that bit is set, and nothing else. */
  lemma DrawnNext(mem: seq<Byte>, base: nat, vx: Byte, vy: Byte, n: nat, row: nat, col: nat, k: nat)
    requires |mem| == RAM_SIZE && row < n <= 0x10 && col < 8 && base + row < RAM_SIZE && k < SCREEN_SIZE
    requires SpriteBit(mem[base + row], col) ==> (vy + row) % SCREEN_WIDTH < SCREEN_HEIGHT
    ensures Drawn(mem, base, vx, vy, n, row, col + 1, k) ==
            (Drawn(mem, base, vx, vy, n, row, col, k) || (SpriteBit(mem[base + row], col) && k == PixelIndex(vx, vy, row, col)))
  {
    Chip8Properties.PixelIndexOfCell(vx, vy, k);
    if SpriteBit(mem[base + row], col) {
      Chip8Properties.CellOfPixelIndex(vx, vy, row, col);
    }
  }
}
