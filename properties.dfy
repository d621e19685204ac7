/**
 * What the interpreter promises, proved about the value-level semantics:
 * reset and loading, fetch, the call stack, flag arithmetic, sprite drawing,
 * BCD, register blocks, skips and invalid opcodes.
 */
module Chip8Properties {
  import opened Chip8Types
  import opened Chip8Decode
  import opened Chip8Semantics

  // ------------------------------------------------------------ reset, load

  /** Reset zeroes every register, the stack, keys, screen and timers, sets PC to 0x200 and reinstalls the font; memory above the font is kept. */
  lemma ResetState(m: State)
    ensures var r := Reset(m);
      r.pc == START_ADDR && r.sp == 0 && r.i == 0 && r.delayTimer == 0 && r.soundTimer == 0 &&
      (forall k :: 0 <= k < NUM_REGS ==> r.v[k] == 0) &&
      (forall k :: 0 <= k < STACK_SIZE ==> r.stack[k] == 0) &&
      (forall k :: 0 <= k < NUM_KEYS ==> !r.keys[k]) &&
      (forall k :: 0 <= k < SCREEN_SIZE ==> !r.screen[k]) &&
      r.memory[..FONTSET_SIZE] == FONTSET &&
      (forall a :: FONTSET_SIZE <= a < RAM_SIZE ==> r.memory[a] == m.memory[a])
  {
  }

  /** A reset machine is the fresh one of `new` except for memory above the font; resetting twice is resetting once. */
  lemma ResetIsInitialUpToMemory(m: State)
    ensures Reset(m).(memory := Initial().memory) == Initial()
    ensures Reset(Initial()) == Initial()
    ensures Reset(Reset(m)) == Reset(m)
  {
    var r := Reset(m);
    assert FONTSET + r.memory[FONTSET_SIZE..] == r.memory;
    assert FONTSET + Initial().memory[FONTSET_SIZE..] == Initial().memory;
  }

  /** A ROM that fits is copied to 0x200 byte for byte and nothing else changes; a larger one is refused. */
  lemma LoadRomCopies(m: State, rom: seq<Byte>)
    ensures |rom| > RAM_SIZE - START_ADDR <==> LoadRom(m, rom) == Err(RomTooLarge(|rom|))
    ensures |rom| <= RAM_SIZE - START_ADDR ==> (LoadRom(m, rom).Ok? &&
      var r := LoadRom(m, rom).value;
      (forall k :: 0 <= k < |rom| ==> r.memory[START_ADDR + k] == rom[k]) &&
      (forall a :: 0 <= a < RAM_SIZE && !(START_ADDR <= a < START_ADDR + |rom|) ==> r.memory[a] == m.memory[a]) &&
      r == m.(memory := r.memory))
  {
  }

  /** A key event sets exactly the flag of its key; an index past the keypad is refused. */
  lemma KeyPressSetsOneKey(m: State, key: nat, pressed: bool)
    ensures key >= NUM_KEYS <==> KeyPress(m, key, pressed) == Err(KeyOutOfRange(key))
    ensures key < NUM_KEYS ==> (KeyPress(m, key, pressed).Ok? &&
      var r := KeyPress(m, key, pressed).value;
      r.keys[key] == pressed && (forall k :: 0 <= k < NUM_KEYS && k != key ==> r.keys[k] == m.keys[k]) &&
      r == m.(keys := r.keys))
  {
  }

  // ------------------------------------------------------------------ fetch

  /** Fetch reads the big-endian opcode at PC and advances PC by 2; its nibbles are the two bytes' halves. */
  lemma FetchReadsOpcode(m: State)
    ensures Fetch(m).Ok? <==> m.pc + 1 < RAM_SIZE
    ensures Fetch(m).Err? ==> Fetch(m).fault == MemoryOutOfBounds
    ensures Fetch(m).Ok? ==>
      var Fetched(op, next) := Fetch(m).value;
      op == m.memory[m.pc] as int * 256 + m.memory[m.pc + 1] &&
      next == m.(pc := m.pc + 2) &&
      Nibbles(op) == (m.memory[m.pc] / 0x10, m.memory[m.pc] % 0x10, m.memory[m.pc + 1] / 0x10, m.memory[m.pc + 1] % 0x10)
  {
    if m.pc + 1 < RAM_SIZE {
      FetchAt(m);
      NibblesOfBytes(m.memory[m.pc], m.memory[m.pc + 1]);
    }
  }

  /** The opcode nibbles of a big-endian byte pair are the two bytes' high and low halves. */
  lemma NibblesOfBytes(hi: Byte, lo: Byte)
    ensures Nibbles(hi as int * 256 + lo) == (hi / 0x10, hi % 0x10, lo / 0x10, lo % 0x10)
  {
    var d1, d2, d3, d4 := hi / 0x10, hi % 0x10, lo / 0x10, lo % 0x10;
    assert hi == d1 * 0x10 + d2 && lo == d3 * 0x10 + d4;
    assert 0 <= d1 < 0x10 && 0 <= d3 < 0x10;
    var op := Assemble(d1, d2, d3, d4);
    NibblesOfAssemble(d1, d2, d3, d4);
    assert op == hi as int * 256 + lo;
  }

  // ------------------------------------------------------------------ stack

  /** Popping right after a push returns the pushed value, restores SP and leaves the popped slot zero. */
  lemma PushThenPop(m: State, value: Word)
    requires m.sp < STACK_SIZE
    ensures Push(m, value).Ok?
    ensures Pop(Push(m, value).value) == Ok(Popped(value, m.(stack := m.stack[m.sp := 0])))
  {
    assert m.stack[m.sp := value][m.sp := 0] == m.stack[m.sp := 0];
  }

  /** Push faults exactly on a full stack, pop exactly on an empty one (or an SP past the stack). */
  lemma StackFaults(m: State, value: Word)
    ensures Push(m, value).Err? <==> m.sp >= STACK_SIZE
    ensures Pop(m) == Err(StackUnderflow) <==> m.sp == 0
    ensures Pop(m).Ok? <==> 0 < m.sp <= STACK_SIZE
  {
  }

  /** 2NNN pushes the advanced PC and jumps; the matching 00EE restores PC and SP and zeroes the used slot. */
  lemma CallThenReturn(m: State, a: Addr, rnd: Byte)
    requires m.sp < STACK_SIZE
    ensures Run(m, Call(a), rnd).Ok?
    ensures var c := Run(m, Call(a), rnd).value;
      c == m.(pc := a, sp := m.sp + 1, stack := m.stack[m.sp := m.pc]) &&
      Run(c, Return, rnd) == Ok(m.(stack := m.stack[m.sp := 0]))
  {
    PushThenPop(m, m.pc);
  }

  /** 00EE does not depend on PC: it reloads PC from the stack. */
  lemma ReturnIgnoresPc(m: State, p: Word, rnd: Byte)
    ensures Run(m.(pc := p), Return, rnd) == Run(m, Return, rnd)
  {
  }

  /** A cycle whose PC holds the two bytes of an instruction's opcode runs that instruction with PC already advanced. */
  lemma StepRuns(m: State, ins: Instr, rnd: Byte)
    requires m.pc + 1 < RAM_SIZE
    requires m.memory[m.pc] as int * 256 + m.memory[m.pc + 1] == Encode(ins)
    ensures Step(m, rnd) == Run(m.(pc := m.pc + 2), ins, rnd)
  {
    var op := m.memory[m.pc] as int * 256 + m.memory[m.pc + 1];
    FetchAt(m);
    DecodeEncode(ins);
    StepExecutes(m, op, ins, rnd);
  }

  /** The fetch at an in-memory PC yields the big-endian pair there and PC + 2. */
  lemma FetchAt(m: State)
    requires m.pc + 1 < RAM_SIZE
    ensures Fetch(m) == Ok(Fetched(m.memory[m.pc] as int * 256 + m.memory[m.pc + 1], m.(pc := m.pc + 2)))
  {
  }

  /** A cycle whose fetch yields `op` runs the instruction `op` decodes to. */
  lemma StepExecutes(m: State, op: Word, ins: Instr, rnd: Byte)
    requires m.pc + 1 < RAM_SIZE
    requires Fetch(m) == Ok(Fetched(op, m.(pc := m.pc + 2)))
    requires Decode(op) == Some(ins)
    ensures Step(m, rnd) == Run(m.(pc := m.pc + 2), ins, rnd)
  {
  }

  /** The two opcode bytes of 2NNN are 0x20 + the high nibble of NNN and its low byte. */
  lemma CallOpcode(a: Addr)
    ensures Encode(Call(a)) == (0x20 + a / 0x100) * 0x100 + a % 0x100
  {
    AddressSplit(a);
    Split256(a, a / 0x100, a / 0x10 % 0x10 * 0x10 + a % 0x10);
  }

  /** Two interpreter cycles over a CALL at PC and a RET at its target return to the instruction after the CALL. */
  lemma CallReturnCycles(m: State, a: Addr, rnd1: Byte, rnd2: Byte)
    requires m.pc + 1 < RAM_SIZE && a + 1 < RAM_SIZE && m.sp < STACK_SIZE
    requires m.memory[m.pc] == 0x20 + a / 0x100 && m.memory[m.pc + 1] == a % 0x100
    requires m.memory[a] == 0x00 && m.memory[a + 1] == 0xEE
    ensures Step(m, rnd1).Ok?
    ensures Step(Step(m, rnd1).value, rnd2) == Ok(m.(pc := m.pc + 2, stack := m.stack[m.sp := 0]))
  {
    var next := m.(pc := m.pc + 2);
    CallOpcode(a);
    StepRuns(m, Call(a), rnd1);
    CallThenReturn(next, a, rnd1);
    var c := Run(next, Call(a), rnd1).value;
    StepRuns(c, Return, rnd2);
    ReturnIgnoresPc(c, a + 2, rnd2);
  }

  // ------------------------------------------------------------- arithmetic

  /** 8XY4: VX = VX + VY mod 256 and VF = 1 exactly on unsigned overflow; with X = F the sum overwrites the flag. */
  lemma AddWithCarry(m: State, x: Nibble, y: Nibble, rnd: Byte)
    ensures Run(m, AddReg(x, y), rnd).Ok?
    ensures var r := Run(m, AddReg(x, y), rnd).value; var sum := m.v[x] as int + m.v[y];
      r == m.(v := r.v) &&
      (forall k :: 0 <= k < NUM_REGS && k != x && k != VF ==> r.v[k] == m.v[k]) &&
      r.v[x] == sum % 256 &&
      (x != VF ==> (r.v[VF] == 1 <==> sum > 255) && r.v[x] as int + 256 * (r.v[VF] as int) == sum)
  {
  }

  /** 8XY5: VX = VX - VY mod 256 and VF = 1 exactly when VX >= VY (no borrow). */
  lemma SubtractWithBorrow(m: State, x: Nibble, y: Nibble, rnd: Byte)
    ensures Run(m, SubReg(x, y), rnd).Ok?
    ensures var r := Run(m, SubReg(x, y), rnd).value; var diff := m.v[x] as int - m.v[y];
      r == m.(v := r.v) &&
      (forall k :: 0 <= k < NUM_REGS && k != x && k != VF ==> r.v[k] == m.v[k]) &&
      r.v[x] == diff % 256 &&
      (x != VF ==> (r.v[VF] == 1 <==> m.v[x] >= m.v[y]) && r.v[x] == diff + 256 * (1 - r.v[VF] as int))
  {
  }

  /** 8XY7: VX = VY - VX mod 256 and VF = 1 exactly when VY >= VX. */
  lemma ReverseSubtractWithBorrow(m: State, x: Nibble, y: Nibble, rnd: Byte)
    ensures Run(m, SubNeg(x, y), rnd).Ok?
    ensures var r := Run(m, SubNeg(x, y), rnd).value; var diff := m.v[y] as int - m.v[x];
      r == m.(v := r.v) &&
      (forall k :: 0 <= k < NUM_REGS && k != x && k != VF ==> r.v[k] == m.v[k]) &&
      r.v[x] == diff % 256 &&
      (x != VF ==> (r.v[VF] == 1 <==> m.v[y] >= m.v[x]) && r.v[x] == diff + 256 * (1 - r.v[VF] as int))
  {
  }

  /** 8XY6: VF gets the bit shifted out, written last so it wins when X = F; VX is halved. */
  lemma ShiftRightFlag(m: State, x: Nibble, y: Nibble, rnd: Byte)
    ensures Run(m, ShiftRight(x, y), rnd).Ok?
    ensures var r := Run(m, ShiftRight(x, y), rnd).value;
      r == m.(v := r.v) &&
      (forall k :: 0 <= k < NUM_REGS && k != x && k != VF ==> r.v[k] == m.v[k]) &&
      r.v[VF] == m.v[x] % 2 &&
      (x != VF ==> 2 * r.v[x] as int + r.v[VF] == m.v[x])
  {
  }

  /** 8XYE: VF gets the top bit shifted out, written last; VX is doubled modulo 256. */
  lemma ShiftLeftFlag(m: State, x: Nibble, y: Nibble, rnd: Byte)
    ensures Run(m, ShiftLeft(x, y), rnd).Ok?
    ensures var r := Run(m, ShiftLeft(x, y), rnd).value;
      r == m.(v := r.v) &&
      (forall k :: 0 <= k < NUM_REGS && k != x && k != VF ==> r.v[k] == m.v[k]) &&
      (r.v[VF] == 1 <==> m.v[x] >= 0x80) && (r.v[VF] == 0 <==> m.v[x] < 0x80) &&
      (x != VF ==> r.v[x] as int + 256 * (r.v[VF] as int) == 2 * (m.v[x] as int))
  {
  }

  /** 6XNN, 7XNN, 8XY0: VX alone changes; the add wraps modulo 256 and leaves VF alone. */
  lemma RegisterTransfers(m: State, x: Nibble, y: Nibble, nn: Byte, rnd: Byte)
    ensures Run(m, LoadByte(x, nn), rnd) == Ok(m.(v := m.v[x := nn]))
    ensures Run(m, Move(x, y), rnd) == Ok(m.(v := m.v[x := m.v[y]]))
    ensures Run(m, AddByte(x, nn), rnd).Ok? &&
      var r := Run(m, AddByte(x, nn), rnd).value;
      r == m.(v := r.v) && (forall k :: 0 <= k < NUM_REGS && k != x ==> r.v[k] == m.v[k]) &&
      (r.v[x] == m.v[x] as int + nn || r.v[x] == m.v[x] as int + nn - 256) && (m.v[x] == 0xFF && nn == 1 ==> r.v[x] == 0)
  {
  }

  /** 0000 does nothing; 1NNN sets PC to NNN and nothing else. */
  lemma NopAndJump(m: State, a: Addr, rnd: Byte)
    ensures Run(m, Nop, rnd) == Ok(m)
    ensures Run(m, Jump(a), rnd) == Ok(m.(pc := a))
  {
  }

  /** ANNN and BNNN: I or PC take the address; BNNN adds V0 and never wraps. */
  lemma IndexAndJumps(m: State, a: Addr, rnd: Byte)
    ensures Run(m, LoadIndex(a), rnd) == Ok(m.(i := a))
    ensures Run(m, JumpOffset(a), rnd) == Ok(m.(pc := a + m.v[0]))
  {
  }

  /** FX29 and FX1E: I becomes 5 * VX, or I + VX, which faults on u16 overflow. */
  lemma IndexArithmetic(m: State, x: Nibble, rnd: Byte)
    ensures Run(m, FontChar(x), rnd) == Ok(m.(i := 5 * m.v[x] as int))
    ensures Run(m, AddIndex(x), rnd) == if m.i + m.v[x] <= 0xFFFF then Ok(m.(i := m.i + m.v[x])) else Err(AddressOverflow)
  {
  }

  /** FX29 points I at the five font bytes of the digit in VX on a machine whose font is installed. */
  lemma FontCharAddressesGlyph(m: State, x: Nibble, rnd: Byte)
    requires m.memory[..FONTSET_SIZE] == FONTSET
    requires m.v[x] < 0x10
    ensures var r := Run(m, FontChar(x), rnd).value;
      r.i + 5 <= FONTSET_SIZE && r.memory[r.i..r.i + 5] == FONTSET[5 * m.v[x]..5 * m.v[x] + 5]
  {
    var r := Run(m, FontChar(x), rnd).value;
    IndexArithmetic(m, x, rnd);
    var lo := 5 * m.v[x] as int;
    assert r.i == lo && r.memory == m.memory;
    forall j | lo <= j < lo + 5
      ensures r.memory[j] == FONTSET[j]
    {
      assert m.memory[j] == m.memory[..FONTSET_SIZE][j];
    }
    assert r.memory[lo..lo + 5] == FONTSET[lo..lo + 5];
  }

  /** FX07, FX15, FX18: copies between VX and the timers; nothing else changes. */
  lemma TimerTransfers(m: State, x: Nibble, rnd: Byte)
    ensures Run(m, GetDelay(x), rnd) == Ok(m.(v := m.v[x := m.delayTimer]))
    ensures Run(m, SetDelay(x), rnd) == Ok(m.(delayTimer := m.v[x]))
    ensures Run(m, SetSound(x), rnd) == Ok(m.(soundTimer := m.v[x]))
  {
  }

  /** FX15 then FX07 copies VX into VY through the delay timer; FX18 leaves the delay timer alone. */
  lemma DelayRoundTrip(m: State, x: Nibble, y: Nibble, rnd: Byte)
    ensures var t := Run(m, SetDelay(x), rnd).value;
      Run(t, GetDelay(y), rnd).Ok? && Run(t, GetDelay(y), rnd).value.v[y] == m.v[x] &&
      Run(m, SetSound(x), rnd).value.delayTimer == m.delayTimer
  {
  }

  /** ANNN then FX1E leaves I at NNN + VX, which never overflows. */
  lemma IndexThenAdd(m: State, a: Addr, x: Nibble, rnd: Byte)
    ensures var t := Run(m, LoadIndex(a), rnd).value;
      Run(t, AddIndex(x), rnd) == Ok(m.(i := a + m.v[x]))
  {
  }

  /** CXNN: VX = random byte AND NN, so VX has no bit that NN lacks and is at most NN. */
  lemma RandomMasked(m: State, x: Nibble, nn: Byte, rnd: Byte)
    ensures Run(m, Random(x, nn), rnd).Ok?
    ensures var r := Run(m, Random(x, nn), rnd).value;
      r == m.(v := r.v) && (forall k :: 0 <= k < NUM_REGS && k != x ==> r.v[k] == m.v[k]) &&
      r.v[x] <= nn && (forall k :: 0 <= k < 8 ==> (Bit(r.v[x], k) <==> Bit(rnd, k) && Bit(nn, k)))
  {
    assert Run(m, Random(x, nn), rnd) == Ok(SetV(m, x, BitAnd(rnd, nn)));
    ByteBits(rnd, nn);
  }

  /** The bits of OR, AND and XOR of two bytes, and the bounds AND and OR keep. */
  lemma ByteBits(p: Byte, q: Byte)
    ensures forall k :: 0 <= k < 8 ==>
      (Bit(BitOr(p, q), k) <==> Bit(p, k) || Bit(q, k)) &&
      (Bit(BitAnd(p, q), k) <==> Bit(p, k) && Bit(q, k)) &&
      (Bit(BitXor(p, q), k) <==> Bit(p, k) != Bit(q, k))
    ensures BitAnd(p, q) <= q && BitOr(p, q) >= p
  {
    var w := ByteWidth();
    forall k | 0 <= k < 8
      ensures (Bit(BitOr(p, q), k) <==> Bit(p, k) || Bit(q, k)) &&
              (Bit(BitAnd(p, q), k) <==> Bit(p, k) && Bit(q, k)) &&
              (Bit(BitXor(p, q), k) <==> Bit(p, k) != Bit(q, k))
    {
      BitwiseBit(OrOp, p, q, w, k);
      BitwiseBit(AndOp, p, q, w, k);
      BitwiseBit(XorOp, p, q, w, k);
    }
    BitwiseBelow(p, q, w);
  }

  /** Bit k of a bitwise combination is `op` applied to bit k of each operand. */
  lemma {:induction false} BitwiseBit(op: BitOp, a: nat, b: nat, w: nat, k: nat)
    requires k < w
    ensures Bit(Bitwise(op, a, b, w), k) == Apply(op, Bit(a, k), Bit(b, k))
  {
    if k > 0 {
      BitwiseBit(op, a / 2, b / 2, w - 1, k - 1);
    }
  }

  /** Two numbers below 2^w with the same w low bits are equal. */
  lemma {:induction false} SameBitsEqual(a: nat, b: nat, w: nat)
    requires a < Pow2(w) && b < Pow2(w)
    requires forall k :: 0 <= k < w ==> Bit(a, k) == Bit(b, k)
    ensures a == b
  {
    if w > 0 {
      assert Bit(a, 0) == Bit(b, 0);
      forall k | 0 <= k < w - 1
        ensures Bit(a / 2, k) == Bit(b / 2, k)
      {
        assert Bit(a, k + 1) == Bit(b, k + 1);
      }
      SameBitsEqual(a / 2, b / 2, w - 1);
    }
  }

  /** AND never exceeds its second operand, OR never falls below its first. */
  lemma {:induction false} BitwiseBelow(a: nat, b: nat, w: nat)
    requires a < Pow2(w) && b < Pow2(w)
    ensures Bitwise(AndOp, a, b, w) <= b
    ensures Bitwise(OrOp, a, b, w) >= a
  {
    if w > 0 {
      BitwiseBelow(a / 2, b / 2, w - 1);
    }
  }

  /** 8XY1, 8XY2, 8XY3 combine VX and VY bit by bit and change no other register; AND stays within VY and OR covers VX. */
  lemma BitwiseOps(m: State, x: Nibble, y: Nibble, rnd: Byte)
    ensures Run(m, Or(x, y), rnd).Ok? && Run(m, And(x, y), rnd).Ok? && Run(m, Xor(x, y), rnd).Ok?
    ensures var o, a, e := Run(m, Or(x, y), rnd).value, Run(m, And(x, y), rnd).value, Run(m, Xor(x, y), rnd).value;
      o == m.(v := o.v) && a == m.(v := a.v) && e == m.(v := e.v) &&
      (forall k :: 0 <= k < NUM_REGS && k != x ==> o.v[k] == m.v[k] && a.v[k] == m.v[k] && e.v[k] == m.v[k]) &&
      (forall k :: 0 <= k < 8 ==>
        (Bit(o.v[x], k) <==> Bit(m.v[x], k) || Bit(m.v[y], k)) &&
        (Bit(a.v[x], k) <==> Bit(m.v[x], k) && Bit(m.v[y], k)) &&
        (Bit(e.v[x], k) <==> Bit(m.v[x], k) != Bit(m.v[y], k))) &&
      a.v[x] <= m.v[y] && o.v[x] >= m.v[x]
  {
    var p, q := m.v[x], m.v[y];
    assert Run(m, Or(x, y), rnd) == Ok(SetV(m, x, BitOr(p, q)));
    assert Run(m, And(x, y), rnd) == Ok(SetV(m, x, BitAnd(p, q)));
    assert Run(m, Xor(x, y), rnd) == Ok(SetV(m, x, BitXor(p, q)));
    ByteBits(p, q);
  }

  /** XOR with the same byte twice gives the byte back. */
  lemma XorTwice(a: Byte, b: Byte)
    ensures BitXor(BitXor(a, b), b) == a
  {
    var c := BitXor(a, b);
    forall k | 0 <= k < 8
      ensures Bit(BitXor(c, b), k) == Bit(a, k)
    {
      BitwiseBit(XorOp, c, b, 8, k);
      BitwiseBit(XorOp, a, b, 8, k);
    }
    SameBitsEqual(BitXor(c, b), a, 8);
  }

  /** 8XY3 run twice with X != Y gives VX back. */
  lemma XorTwiceRestores(m: State, x: Nibble, y: Nibble, rnd: Byte)
    requires x != y
    ensures var r := Run(m, Xor(x, y), rnd).value;
      Run(r, Xor(x, y), rnd) == Ok(m)
  {
    XorTwice(m.v[x], m.v[y]);
    var r := Run(m, Xor(x, y), rnd).value;
    assert r.v[x := BitXor(r.v[x], r.v[y])] == m.v;
  }

  // ------------------------------------------------------------------ skips

  /** The condition under which a skip instruction skips. */
  predicate SkipTaken(m: State, ins: Instr)
    requires ins.SkipEqByte? || ins.SkipNeByte? || ins.SkipEqReg? || ins.SkipNeReg? || ins.SkipKey? || ins.SkipNoKey?
    requires (ins.SkipKey? || ins.SkipNoKey?) ==> m.v[ins.x] < NUM_KEYS
  {
    match ins
    case SkipEqByte(x, nn) => m.v[x] == nn
    case SkipNeByte(x, nn) => m.v[x] != nn
    case SkipEqReg(x, y) => m.v[x] == m.v[y]
    case SkipNeReg(x, y) => m.v[x] != m.v[y]
    case SkipKey(x) => m.keys[m.v[x]]
    case SkipNoKey(x) => !m.keys[m.v[x]]
  }

  /** 3XNN, 4XNN, 5XY0, 9XY0, EX9E, EXA1 add 2 to PC exactly when their condition holds and change nothing else; a taken skip past 0xFFFF overflows. */
  lemma SkipsAdvanceExactlyWhenTaken(m: State, ins: Instr, rnd: Byte)
    requires ins.SkipEqByte? || ins.SkipNeByte? || ins.SkipEqReg? || ins.SkipNeReg? || ins.SkipKey? || ins.SkipNoKey?
    requires (ins.SkipKey? || ins.SkipNoKey?) ==> m.v[ins.x] < NUM_KEYS
    ensures !SkipTaken(m, ins) ==> Run(m, ins, rnd) == Ok(m)
    ensures SkipTaken(m, ins) && m.pc + 2 <= 0xFFFF ==> Run(m, ins, rnd) == Ok(m.(pc := m.pc + 2))
    ensures SkipTaken(m, ins) && m.pc + 2 > 0xFFFF ==> Run(m, ins, rnd) == Err(AddressOverflow)
  {
  }

  /** EX9E and EXA1 fault when VX names no key. */
  lemma KeySkipsFaultOnBadKey(m: State, x: Nibble, rnd: Byte)
    requires m.v[x] >= NUM_KEYS
    ensures Run(m, SkipKey(x), rnd) == Err(KeyOutOfRange(m.v[x]))
    ensures Run(m, SkipNoKey(x), rnd) == Err(KeyOutOfRange(m.v[x]))
  {
  }

  /** FX0A: with a key down, VX gets the lowest pressed key; with none, nothing changes (PC has already moved on). */
  lemma WaitKeyTakesLowestKey(m: State, x: Nibble, rnd: Byte)
    ensures Run(m, WaitKey(x), rnd).Ok?
    ensures var r := Run(m, WaitKey(x), rnd).value;
      ((forall k :: 0 <= k < NUM_KEYS ==> !m.keys[k]) ==> r == m) &&
      (forall key :: 0 <= key < NUM_KEYS && m.keys[key] && (forall k :: 0 <= k < key ==> !m.keys[k]) ==>
         r == m.(v := m.v[x := key]))
  {
    match FirstPressed(m.keys, 0)
    case None =>
    case Some(k) =>
      forall key | 0 <= key < NUM_KEYS && m.keys[key] && (forall j :: 0 <= j < key ==> !m.keys[j])
        ensures key == k
      {
      }
  }

  // ----------------------------------------------------------- BCD, blocks

  /** FX33: the three bytes at I are the decimal digits of VX, most significant first; no other byte changes. */
  lemma StoreBcdDigits(m: State, x: Nibble, rnd: Byte)
    ensures Run(m, StoreBcd(x), rnd).Err? <==> m.i + 2 >= RAM_SIZE
    ensures m.i + 2 < RAM_SIZE ==>
      var r := Run(m, StoreBcd(x), rnd).value; var i := m.i as int;
      r.memory[i] < 10 && r.memory[i + 1] < 10 && r.memory[i + 2] < 10 &&
      100 * r.memory[i] + 10 * r.memory[i + 1] + r.memory[i + 2] == m.v[x] &&
      (forall a :: 0 <= a < RAM_SIZE && !(i <= a <= i + 2) ==> r.memory[a] == m.memory[a]) &&
      r == m.(memory := r.memory)
  {
    if m.i + 2 < RAM_SIZE {
      var vx := m.v[x] as int;
      assert vx == 100 * (vx / 100) + 10 * (vx / 10 % 10) + vx % 10 by {
        assert vx == 10 * (vx / 10) + vx % 10;
        assert vx / 10 == 10 * (vx / 100) + vx / 10 % 10;
      }
    }
  }

  /** FX33 with VX = 157 writes 1, 5, 7. */
  lemma StoreBcdExample(m: State, x: Nibble, rnd: Byte)
    requires m.v[x] == 157 && m.i + 2 < RAM_SIZE
    ensures var r := Run(m, StoreBcd(x), rnd).value;
      r.memory[m.i] == 1 && r.memory[m.i + 1] == 5 && r.memory[m.i + 2] == 7
  {
  }

  /** FX55 writes V0..VX to memory[I..I+X] and changes nothing else; it faults when that range leaves memory. */
  lemma StoreRegistersWrites(m: State, x: Nibble, rnd: Byte)
    ensures Run(m, StoreRegs(x), rnd).Err? <==> m.i + x >= RAM_SIZE
    ensures m.i + x < RAM_SIZE ==>
      var r := Run(m, StoreRegs(x), rnd).value;
      (forall a :: 0 <= a < RAM_SIZE ==> r.memory[a] == if m.i <= a <= m.i + x then m.v[a - m.i] else m.memory[a]) &&
      r == m.(memory := r.memory)
  {
  }

  /** FX65 loads V0..VX from memory[I..I+X] and changes nothing else. */
  lemma LoadRegistersReads(m: State, x: Nibble, rnd: Byte)
    ensures Run(m, LoadRegs(x), rnd).Err? <==> m.i + x >= RAM_SIZE
    ensures m.i + x < RAM_SIZE ==>
      var r := Run(m, LoadRegs(x), rnd).value;
      (forall k :: 0 <= k < NUM_REGS ==> r.v[k] == if k <= x then m.memory[m.i + k] else m.v[k]) &&
      r == m.(v := r.v)
  {
  }

  /**
   * FX55 then FX65 with the same I and X restores V0..VX, whatever happened to
   * the registers in between, provided memory and I are as FX55 left them.
   */
  lemma StoreThenLoadRestores(m: State, t: State, x: Nibble, rnd: Byte)
    requires m.i + x < RAM_SIZE
    requires t.memory == Run(m, StoreRegs(x), rnd).value.memory && t.i == m.i
    ensures Run(t, LoadRegs(x), rnd).Ok?
    ensures var r := Run(t, LoadRegs(x), rnd).value;
      (forall k :: 0 <= k <= x ==> r.v[k] == m.v[k]) &&
      (forall k :: x < k < NUM_REGS ==> r.v[k] == t.v[k]) &&
      r == t.(v := r.v)
  {
    StoreRegistersWrites(m, x, rnd);
    LoadRegistersReads(t, x, rnd);
  }

  // ------------------------------------------------------------------- draw

  /** Every screen cell is the pixel index of the sprite row and column that RowAt and ColAt give it. */
  lemma PixelIndexOfCell(vx: Byte, vy: Byte, k: nat)
    requires k < SCREEN_SIZE
    ensures RowAt(vy, k) < SCREEN_WIDTH && ColAt(vx, k) < SCREEN_WIDTH
    ensures PixelIndex(vx, vy, RowAt(vy, k), ColAt(vx, k)) == k
  {
    var py, px := k / SCREEN_WIDTH, k % SCREEN_WIDTH;
    assert (vx + ColAt(vx, k)) % SCREEN_WIDTH == px;
    assert (vy + RowAt(vy, k)) % SCREEN_WIDTH == py;
  }

  /** The pixel index of an on-screen sprite bit leads back to that bit's row and column. */
  lemma CellOfPixelIndex(vx: Byte, vy: Byte, row: nat, col: nat)
    requires row < SCREEN_WIDTH && col < SCREEN_WIDTH
    requires (vy + row) % SCREEN_WIDTH < SCREEN_HEIGHT
    ensures PixelIndex(vx, vy, row, col) < SCREEN_SIZE
    ensures RowAt(vy, PixelIndex(vx, vy, row, col)) == row && ColAt(vx, PixelIndex(vx, vy, row, col)) == col
  {
    var k := PixelIndex(vx, vy, row, col);
    assert k / SCREEN_WIDTH == (vy + row) % SCREEN_WIDTH;
    assert k % SCREEN_WIDTH == (vx + col) % SCREEN_WIDTH;
  }

  /** Without a draw fault from `row` on, every later row lies in memory and, if it has a set bit, on the screen. */
  lemma {:induction false} NoDrawFaultRows(mem: seq<Byte>, base: nat, vy: Byte, n: nat, row: nat, r: nat)
    requires |mem| == RAM_SIZE
    requires DrawFault(mem, base, vy, n, row) == None
    requires row <= r < n
    ensures base + r < RAM_SIZE
    ensures HasSetBit(mem[base + r]) ==> (vy + r) % SCREEN_WIDTH < SCREEN_HEIGHT
    decreases r - row
  {
    if row < r {
      NoDrawFaultRows(mem, base, vy, n, row + 1, r);
    }
  }

  /** A set sprite bit lands on a screen cell it covers. */
  lemma SetBitCovers(m: State, x: Nibble, y: Nibble, n: Nibble, row: nat, col: nat)
    requires DrawFault(m.memory, m.i, m.v[y], n, 0) == None
    requires row < n && col < 8 && m.i + row < RAM_SIZE && SpriteBit(m.memory[m.i + row], col)
    ensures PixelIndex(m.v[x], m.v[y], row, col) < SCREEN_SIZE
    ensures Covered(m.memory, m.i, m.v[x], m.v[y], n, PixelIndex(m.v[x], m.v[y], row, col))
  {
    NoDrawFaultRows(m.memory, m.i, m.v[y], n, 0, row);
    CellOfPixelIndex(m.v[x], m.v[y], row, col);
  }

  /** DXYN toggles the pixel under every set sprite bit. */
  lemma DrawTogglesSetBits(m: State, x: Nibble, y: Nibble, n: Nibble, rnd: Byte, row: nat, col: nat)
    requires Run(m, Draw(x, y, n), rnd).Ok?
    requires row < n && col < 8 && m.i + row < RAM_SIZE && SpriteBit(m.memory[m.i + row], col)
    ensures var k := PixelIndex(m.v[x], m.v[y], row, col);
      k < SCREEN_SIZE && Run(m, Draw(x, y, n), rnd).value.screen[k] == !m.screen[k]
  {
    SetBitCovers(m, x, y, n, row, col);
  }

  /** DXYN leaves every pixel that no set sprite bit lands on as it was, and changes no register but VF. */
  lemma DrawLeavesOtherPixels(m: State, x: Nibble, y: Nibble, n: Nibble, rnd: Byte, k: nat)
    requires Run(m, Draw(x, y, n), rnd).Ok?
    requires k < SCREEN_SIZE
    requires forall row, col :: 0 <= row < n && 0 <= col < 8 && m.i + row < RAM_SIZE && SpriteBit(m.memory[m.i + row], col)
               ==> PixelIndex(m.v[x], m.v[y], row, col) != k
    ensures var r := Run(m, Draw(x, y, n), rnd).value;
      r.screen[k] == m.screen[k] &&
      (forall j :: 0 <= j < NUM_REGS && j != VF ==> r.v[j] == m.v[j]) &&
      r == m.(screen := r.screen, v := r.v)
  {
    PixelIndexOfCell(m.v[x], m.v[y], k);
  }

  /** Sprite bit (row, col) of DXYN is set and lands on a pixel that is on. */
  predicate HitsLitPixel(m: State, x: Nibble, y: Nibble, n: Nibble, row: nat, col: nat) {
    row < n && col < 8 && m.i + row < RAM_SIZE && SpriteBit(m.memory[m.i + row], col) &&
    PixelIndex(m.v[x], m.v[y], row, col) < SCREEN_SIZE && m.screen[PixelIndex(m.v[x], m.v[y], row, col)]
  }

  /** DXYN sets VF to 1 exactly when some set sprite bit lands on a pixel that was on, and to 0 otherwise. */
  lemma DrawCollisionFlag(m: State, x: Nibble, y: Nibble, n: Nibble, rnd: Byte)
    requires Run(m, Draw(x, y, n), rnd).Ok?
    ensures var r := Run(m, Draw(x, y, n), rnd).value;
      (r.v[VF] == 0 || r.v[VF] == 1) &&
      (r.v[VF] == 1 <==> exists row, col :: HitsLitPixel(m, x, y, n, row, col))
  {
    assert Run(m, Draw(x, y, n), rnd) == DrawSprite(m, x, y, n);
    CollisionIffHit(m, x, y, n);
  }

  /** On a draw without fault, a covered cell is on exactly when some set sprite bit lands on a pixel that is on. */
  lemma CollisionIffHit(m: State, x: Nibble, y: Nibble, n: Nibble)
    requires DrawFault(m.memory, m.i, m.v[y], n, 0) == None
    ensures Collision(m.memory, m.i, m.v[x], m.v[y], n, m.screen) <==> exists row, col :: HitsLitPixel(m, x, y, n, row, col)
  {
    var vx, vy := m.v[x], m.v[y];
    if Collision(m.memory, m.i, vx, vy, n, m.screen) {
      var k :| 0 <= k < SCREEN_SIZE && Covered(m.memory, m.i, vx, vy, n, k) && m.screen[k];
      PixelIndexOfCell(vx, vy, k);
      assert HitsLitPixel(m, x, y, n, RowAt(vy, k), ColAt(vx, k));
    }
    if exists row, col :: HitsLitPixel(m, x, y, n, row, col) {
      var row, col :| HitsLitPixel(m, x, y, n, row, col);
      SetBitCovers(m, x, y, n, row, col);
    }
  }

  /**
   * Drawing the same sprite twice at the same place (X, Y other than F) gives
   * the screen back, and the second draw reports a collision exactly when some
   * covered pixel was off before the first.
   */
  lemma DrawTwiceRestoresScreen(m: State, x: Nibble, y: Nibble, n: Nibble, rnd: Byte)
    requires x != VF && y != VF
    requires Run(m, Draw(x, y, n), rnd).Ok?
    ensures var r1 := Run(m, Draw(x, y, n), rnd).value;
      Run(r1, Draw(x, y, n), rnd).Ok? &&
      var r2 := Run(r1, Draw(x, y, n), rnd).value;
      r2.screen == m.screen &&
      (r2.v[VF] == 1 <==> exists k :: 0 <= k < SCREEN_SIZE && Covered(m.memory, m.i, m.v[x], m.v[y], n, k) && !m.screen[k])
  {
    var r1 := Run(m, Draw(x, y, n), rnd).value;
    assert r1.v[x] == m.v[x] && r1.v[y] == m.v[y];
    var r2 := Run(r1, Draw(x, y, n), rnd).value;
    assert forall k :: 0 <= k < SCREEN_SIZE ==> r2.screen[k] == m.screen[k];
  }

  /** A sprite row DXYN can draw: the u16 address sum holds, it lies in memory, and if it has a set bit its wrapped row is on screen. */
  predicate RowDrawable(mem: seq<Byte>, base: nat, vy: Byte, r: nat)
    requires |mem| == RAM_SIZE
  {
    base + r <= 0xFFFF && base + r < RAM_SIZE && (HasSetBit(mem[base + r]) ==> (vy + r) % SCREEN_WIDTH < SCREEN_HEIGHT)
  }

  /** DXYN faults exactly when some row from `row` on cannot be drawn. */
  lemma {:induction false} DrawFaultIffBadRow(mem: seq<Byte>, base: nat, vy: Byte, n: nat, row: nat)
    requires |mem| == RAM_SIZE
    ensures DrawFault(mem, base, vy, n, row).None? <==> forall r :: row <= r < n ==> RowDrawable(mem, base, vy, r)
    decreases n - row
  {
    if row < n {
      DrawFaultIffBadRow(mem, base, vy, n, row + 1);
      if RowDrawable(mem, base, vy, row) {
        assert DrawFault(mem, base, vy, n, row) == DrawFault(mem, base, vy, n, row + 1);
      }
    }
  }

  /**
   * The vertical wrap is taken modulo the width, so a sprite whose wrapped row
   * falls in 32..63 indexes past the screen: DXYN with VY = 40 and a non-blank
   * first row faults.
   */
  lemma DrawBelowScreenFaults(m: State, x: Nibble, y: Nibble, n: Nibble, rnd: Byte)
    requires n > 0 && m.i < RAM_SIZE && HasSetBit(m.memory[m.i]) && m.v[y] == 40
    ensures Run(m, Draw(x, y, n), rnd) == Err(ScreenOutOfBounds)
  {
  }

  /** 00E0 turns every pixel off and changes nothing else. */
  lemma ClearTurnsAllOff(m: State, rnd: Byte)
    ensures Run(m, ClearScreen, rnd).Ok?
    ensures var r := Run(m, ClearScreen, rnd).value;
      (forall k :: 0 <= k < SCREEN_SIZE ==> !r.screen[k]) && r == m.(screen := r.screen)
  {
  }

  // -------------------------------------------------- decode and the cycle

  /** FX0A does not hold PC when no key is down: the cycle moves on to the next instruction. */
  lemma WaitKeyDoesNotBlock(m: State, x: Nibble, rnd: Byte)
    requires m.pc + 1 < RAM_SIZE
    requires m.memory[m.pc] == 0xF0 + x && m.memory[m.pc + 1] == 0x0A
    requires forall k :: 0 <= k < NUM_KEYS ==> !m.keys[k]
    ensures Step(m, rnd) == Ok(m.(pc := m.pc + 2))
  {
    StepRuns(m, WaitKey(x), rnd);
    WaitKeyTakesLowestKey(m.(pc := m.pc + 2), x, rnd);
  }

  /** An opcode outside the match is an invalid-opcode fault naming it; a matched one never is. */
  lemma InvalidOpcodeFaults(m: State, op: Word, rnd: Byte)
    ensures Decode(op).None? <==> Execute(m, op, rnd) == Err(InvalidOpcode(op))
    ensures Execute(m, 0x5001, rnd) == Err(InvalidOpcode(0x5001))
  {
    if Decode(op).Some? {
      InstructionsNeverInvalid(m, Decode(op).value, rnd);
    }
  }

  /** Running a decoded instruction never reports an invalid opcode. */
  lemma InstructionsNeverInvalid(m: State, ins: Instr, rnd: Byte)
    ensures !Run(m, ins, rnd).Err? || !Run(m, ins, rnd).fault.InvalidOpcode?
  {
  }

  /** No instruction lets SP pass the stack's capacity, so neither does a cycle. */
  lemma StepKeepsStackBounded(m: State, rnd: Byte)
    requires StackBounded(m)
    ensures Step(m, rnd).Ok? ==> StackBounded(Step(m, rnd).value)
  {
  }
}
