# CHIP-8 interpreter core in Dafny

This project models the `Chip8` interpreter in `src/main.rs`. The model covers:

- the machine state: 4 KiB of memory, sixteen 8-bit registers V0..VF, the 16-bit index register I, PC, SP, a 16-slot call stack, two timers, sixteen key flags and a 64 x 32 monochrome screen;
- the operations on that state: `new`, `load_rom`, `push_to_stack`, `pop_from_stack`, `reset`, `key_press`, `fetch_instruction`, and `execute_instruction` with its 35 opcodes.

It has two layers, over the shared definitions in `types.dfy`: the `Byte`, `Word`, `Nibble` and `Addr` ranges, the size constants, `FONTSET`, the `Fault` and `Outcome` types, and the `Machine` datatype with its well-formed subtype `State`.

- **Value semantics** (`decode.dfy`, `semantics.dfy`).
  - The machine is a `Machine` datatype. `State` is the subtype whose arrays have the struct's sizes.
  - Each operation that can fault returns an `Outcome`: `Ok` with the new state, or `Err(fault)`. `Pop` and `Fetch` also return the popped address or the fetched opcode, as `Outcome<Popped>` and `Outcome<Fetched>`. Operations that cannot fault (`Reset`, and the register-only effects `ArithEffect` and `ExchangeEffect`) return a plain `State`.
  - Every Rust panic is an explicit `Err(fault)`. These are an index out of bounds, a `u16` overflow as a debug build reports it, and the invalid-opcode `panic!`. Neither the Rust program nor the model continues after a fault, so an `Err` carries no machine.
  - Decoding is its own function `Decode`. It maps an opcode to one of the 35 `Instr` values, or to `None` for the invalid-opcode arm. `Encode` is its inverse.
- **Imperative interpreter** (`interpreter.dfy`).
  - `Chip8` is a class. Its arrays are `memory`, `v`, `stack`, `keys` and `screen`. Its scalar registers are fields.
  - Each Rust method is a Dafny method that updates the arrays in place, as the Rust code does.
  - Each method is proved against the value semantics. It leaves `State() == F(old(State()))` for the matching function `F`, or it reports exactly the fault `F` reports. "Proved against" always means this below.
  - The sprite loop and the register-block loops are `while` loops with invariants.

`properties.dfy` proves what the interpreter promises about the value semantics.

Three kinds of input come in as plain values:

- keyboard events are `key_press` calls;
- the random byte of CXNN is a parameter `rnd`;
- a ROM is a byte sequence.

Behaviour reproduced as the code has it:

- **DXYN wraps Y modulo the screen width (64), not the height.** The pixel index is computed only for a sprite bit that is set. So a sprite row whose wrapped row is 32..63 and that has at least one set bit indexes past the screen, and the Rust code panics there; a row with no set bit draws nothing and does not panic. The model reports `ScreenOutOfBounds` (`DrawBelowScreenFaults`). The pixel index is `(vx + col) % 64 + 64 * ((vy + row) % 64)`.
- **The order of flag writes.** In 8XY4, 8XY5 and 8XY7, VF is written before VX, so with X = F the result overwrites the flag. In 8XY6 and 8XYE, VF is written last.
- **Pop zeroes the slot it pops.**
- **FX0A does not wait.** With no key down it changes nothing. PC has already been advanced by the fetch, so the next cycle runs the next instruction (`WaitKeyDoesNotBlock`). On CHIP-8 as usually described, FX0A blocks until a key is pressed; this code does not wait, and the model follows the code.
- **The timers are never decremented.** FX15 and FX18 only store VX in them, and FX07 only reads the delay timer. CHIP-8 timers conventionally count down at 60 Hz; no code here decrements them, and the model follows the code.
- **BNNN never wraps.** Its target is at most 0xFFF + 0xFF.
- **FX1E faults when I + VX leaves `u16`.**
- **FX33 uses the integer digits of VX.** The Rust code divides in `f64` and truncates. For a byte that gives exactly `vx / 100`, `vx / 10 % 10` and `vx % 10`.

## Model

| member | source | states |
|---|---|---|
| Chip8Decode.DecodeEncode | src/main.rs:139-459 | every instruction's canonical opcode decodes back to that instruction |
| Chip8Decode.EncodeDecode | src/main.rs:139-459 | an opcode accepted by the match is the canonical opcode of what it decodes to, so no two opcodes give the same instruction |
| Chip8Decode.NibblesOfAssemble | src/main.rs:140 | the four-nibble split of an assembled word gives back its nibbles |
| Chip8Decode.AssembleOfNibbles | src/main.rs:140 | every 16-bit word is the assembly of its four nibbles |
| Chip8Decode.AddressSplit | src/main.rs:152-156 | an address is the NNN operand built from its own three nibbles |
| Chip8Decode.AddressDigits | src/main.rs:152-156 | the NNN operand gives back the three nibbles it was built from |
| Chip8Decode.ByteSplit | src/main.rs:168-177 | a byte is the NN operand built from its own two nibbles |
| Chip8Decode.DecodeDigitsOfDigits | src/main.rs:141-459 | the match maps the digits of every instruction back to that instruction |
| Chip8Decode.DigitsOfDecodeDigits | src/main.rs:141-459 | a nibble tuple the match accepts is the digit tuple of its instruction |
| Chip8Decode.InvalidOpcodeExample | src/main.rs:188-196 | 0x5001 (5XY0 with a non-zero last nibble) is rejected |
| Chip8Types.FONTSET | src/main.rs:24-41 | the sixteen five-byte glyphs 0..F, byte for byte; FontCharAddressesGlyph and ResetState state what depends on them |
| Chip8Types.Machine | src/main.rs:43-55 | every field of the `Chip8` struct as a value, the arrays as sequences whose lengths `State` fixes; the interpreter's `State()` maps the class onto it, and ResetState and the instruction lemmas state what each operation does to it |
| Chip8Decode.Nibbles | src/main.rs:140 | the four shifted and masked digits of the opcode; NibblesOfAssemble and AssembleOfNibbles state that it inverts Assemble |
| Chip8Decode.Address | src/main.rs:152-156 | the NNN operand, the three low digits shifted into place and or-ed together; AddressSplit and AddressDigits state it |
| Chip8Decode.ByteOf | src/main.rs:168-177 | the NN operand, the two low digits shifted into place and or-ed together; ByteSplit states it |
| Chip8Decode.Decode | src/main.rs:140-459 | the opcode match as a function from a 16-bit opcode to an instruction, or None for the `panic!` arm; DecodeEncode and EncodeDecode state it against Encode |
| Chip8Decode.DecodeDigits | src/main.rs:140-459 | the arms of the match on the digit tuple; DecodeDigitsOfDigits and DigitsOfDecodeDigits state it |
| Chip8Semantics.Initial | src/main.rs:58-75 | the machine `new` builds; ResetIsInitialUpToMemory relates it to reset |
| Chip8Semantics.Reset | src/main.rs:98-110 | the machine `reset` leaves; ResetState and ResetIsInitialUpToMemory state its fields |
| Chip8Semantics.LoadRom | src/main.rs:77-85 | the ROM copy at 0x200, or RomTooLarge; LoadRomCopies states it |
| Chip8Semantics.Push | src/main.rs:87-90 | the push, or StackOverflow; PushThenPop and StackFaults state it |
| Chip8Semantics.Pop | src/main.rs:91-96 | the pop with its zeroed slot, or StackUnderflow; PushThenPop and StackFaults state it |
| Chip8Semantics.Fetch | src/main.rs:112-137 | the big-endian opcode at PC and PC + 2, or the index fault; FetchReadsOpcode states it |
| Chip8Semantics.KeyPress | src/main.rs:485-487 | the one key flag set, or KeyOutOfRange; KeyPressSetsOneKey states it |
| Chip8Semantics.Execute | src/main.rs:139-460 | decode then run, or InvalidOpcode; InvalidOpcodeFaults and InstructionsNeverInvalid state it |
| Chip8Semantics.Step | src/main.rs:548-553 | one cycle of the loop, fetch then execute; StepRuns, CallReturnCycles and StepKeepsStackBounded state it |
| Chip8Semantics.BigEndian | src/main.rs:130 | the opcode, the first byte shifted left by 8 and or-ed with the second; FetchAt, FetchReadsOpcode and NibblesOfBytes state it |
| Chip8Semantics.WithFlagThenV | src/main.rs:242-244 | VF written before VX, as in 8XY4 and also 8XY5 (lines 256-258) and 8XY7 (lines 290-292), so with X = F the result wins; AddWithCarry, SubtractWithBorrow and ReverseSubtractWithBorrow state it |
| Chip8Semantics.WithVThenFlag | src/main.rs:268-270 | VX written before VF, as in 8XY6 and also 8XYE (lines 274-278), so with X = F the flag wins; ShiftRightFlag and ShiftLeftFlag state it |
| Chip8Semantics.SkipIf | src/main.rs:168-177 | `pc += 2` when the condition holds, a fault on u16 overflow, nothing otherwise; SkipsAdvanceExactlyWhenTaken states it |
| Chip8Semantics.BitOr | src/main.rs:218 | the in-place OR of VX with VY; ByteBits and BitwiseOps state it bit by bit |
| Chip8Semantics.BitAnd | src/main.rs:224 | the in-place AND of VX with VY, also the mask of CXNN; ByteBits, BitwiseOps and RandomMasked state it bit by bit |
| Chip8Semantics.BitXor | src/main.rs:230 | the in-place XOR of VX with VY; ByteBits, BitwiseOps and XorTwice state it bit by bit |
| Chip8Semantics.SpriteBit | src/main.rs:352 | `sprite_byte & (0b1000_0000 >> j) != 0`, bit j counted from the top; SetBitCovers and DrawTogglesSetBits state what a set bit does |
| Chip8Semantics.PixelIndex | src/main.rs:353-356 | `x + 64 * y` with both coordinates wrapped modulo the width, Y included; PixelIndexOfCell, CellOfPixelIndex and DrawBelowScreenFaults state it |
| Chip8Semantics.Run | src/main.rs:141-457 | one decoded instruction, dispatched to its group's effect; the instruction lemmas below state each arm |
| Chip8Semantics.ControlEffect | src/main.rs:141-167 | 0000, 00E0, 00EE, 1NNN, 2NNN, and ANNN and BNNN (lines 304-322); NopAndJump, ClearTurnsAllOff, CallThenReturn and IndexAndJumps state them |
| Chip8Semantics.SkipEffect | src/main.rs:168-196 | 3XNN, 4XNN, 5XY0, 9XY0 (lines 294-302), EX9E and EXA1 (lines 371-384); SkipsAdvanceExactlyWhenTaken and KeySkipsFaultOnBadKey state them |
| Chip8Semantics.ArithEffect | src/main.rs:197-293 | 6XNN, 7XNN and 8XY0..8XYE with their flag write order; RegisterTransfers, BitwiseOps and the carry, borrow and shift lemmas state them |
| Chip8Semantics.ExchangeEffect | src/main.rs:385-399 | FX07, FX15, FX18, FX0A (lines 406-416) and CXNN (lines 323-330); TimerTransfers, WaitKeyTakesLowestKey and RandomMasked state them |
| Chip8Semantics.MemoryEffect | src/main.rs:418-457 | FX1E (lines 400-405), FX29, FX33, FX55, FX65 and DXYN (lines 331-370); IndexArithmetic, StoreBcdDigits, StoreRegistersWrites, LoadRegistersReads and the draw lemmas state them |
| Chip8Semantics.StoreDigits | src/main.rs:421-440 | the three digits of VX at I..I+2, or MemoryOutOfBounds; StoreBcdDigits states it |
| Chip8Semantics.StoreRegisters | src/main.rs:441-449 | V0..VX written at I onward, or MemoryOutOfBounds; StoreRegistersWrites states it |
| Chip8Semantics.LoadRegisters | src/main.rs:450-457 | V0..VX read from I onward, or MemoryOutOfBounds; LoadRegistersReads states it |
| Chip8Semantics.DrawSprite | src/main.rs:331-370 | DXYN: the toggled screen and VF, or the first fault in loop order; the draw lemmas below state it |
| Chip8Semantics.XorSprite | src/main.rs:345-357 | the screen with every covered pixel toggled; DrawTogglesSetBits and DrawLeavesOtherPixels state it |
| Chip8Semantics.Collision | src/main.rs:351-364 | some covered pixel was lit; DrawCollisionFlag states it |
| Chip8Semantics.FirstPressed | src/main.rs:406-416 | the result is a pressed key with no pressed key before it, and None means no key from `from` on is pressed |
| Chip8Semantics.DrawFault | src/main.rs:331-370 | the only faults DXYN can raise are the u16 overflow of I + row, a memory index past RAM or a screen index past the screen |
| Chip8Semantics.Bitwise | src/main.rs:214-231 | a bitwise combination of width w is below 2^w |
| Chip8Properties.ResetState | src/main.rs:98-110 | reset zeroes registers, stack, keys, screen, I, SP and timers, sets PC to 0x200, reinstalls the font and keeps the rest of memory |
| Chip8Properties.ResetIsInitialUpToMemory | src/main.rs:58-110 | a reset machine equals the `new` machine except for memory above the font; reset of `new` is `new`; reset is idempotent |
| Chip8Properties.LoadRomCopies | src/main.rs:77-85 | a ROM fits exactly when it is at most 4096 - 0x200 bytes; a fitting ROM is copied byte for byte to 0x200 and nothing else changes; a larger one is refused |
| Chip8Properties.KeyPressSetsOneKey | src/main.rs:485-487 | an index past the keypad is refused; otherwise exactly that key's flag takes the new value and nothing else changes |
| Chip8Properties.FetchReadsOpcode | src/main.rs:112-137 | fetch succeeds exactly when PC + 1 is in memory; the opcode is the big-endian pair at PC, PC advances by 2, and the nibbles are the halves of the two bytes |
| Chip8Properties.PushThenPop | src/main.rs:87-96 | a pop right after a push returns the pushed value, restores SP and leaves the popped slot zero |
| Chip8Properties.StackFaults | src/main.rs:87-96 | push faults exactly on a full stack; pop underflows exactly at SP = 0 and succeeds exactly when 0 < SP <= 16 |
| Chip8Properties.CallThenReturn | src/main.rs:147-167 | 2NNN pushes PC, increments SP and jumps, changing nothing else; the following 00EE gives back the machine with PC restored and the used slot zeroed |
| Chip8Properties.ReturnIgnoresPc | src/main.rs:147-151 | 00EE takes PC from the stack, so its result does not depend on the PC it starts from |
| Chip8Properties.StepRuns | src/main.rs:548-553 | a cycle whose PC holds an instruction's opcode runs that instruction with PC already advanced by 2 |
| Chip8Properties.NibblesOfBytes | src/main.rs:112-140 | the four opcode digits of a big-endian byte pair are the high and low halves of the two bytes |
| Chip8Properties.FetchAt | src/main.rs:112-137 | with PC + 1 inside memory, the fetch yields the big-endian byte pair at PC and advances PC by 2 |
| Chip8Properties.StepExecutes | src/main.rs:548-553 | a cycle whose fetch yields an opcode runs the instruction that opcode decodes to, with PC already advanced |
| Chip8Properties.CallOpcode | src/main.rs:158-167 | the opcode bytes of 2NNN are 0x20 plus the high nibble of NNN, followed by the low byte of NNN |
| Chip8Properties.CallReturnCycles | src/main.rs:548-553 | two cycles over a CALL at PC and a RET at its target end at the instruction after the CALL, with SP restored and the used stack slot zeroed |
| Chip8Properties.AddWithCarry | src/main.rs:232-245 | 8XY4: VX = (VX + VY) mod 256, and VF = 1 exactly on carry with VX + 256 * VF = the sum; only VX and VF change |
| Chip8Properties.SubtractWithBorrow | src/main.rs:246-259 | 8XY5: VX = (VX - VY) mod 256, and VF = 1 exactly when VX >= VY; only VX and VF change |
| Chip8Properties.ReverseSubtractWithBorrow | src/main.rs:280-293 | 8XY7: VX = (VY - VX) mod 256, and VF = 1 exactly when VY >= VX; only VX and VF change |
| Chip8Properties.ShiftRightFlag | src/main.rs:261-271 | 8XY6: VF is the low bit of VX, VX is halved (2 * VX' + VF = VX when X is not F), and VF is written last |
| Chip8Properties.ShiftLeftFlag | src/main.rs:272-279 | 8XYE: VF is the top bit of VX, VX is doubled modulo 256, and VF is written last |
| Chip8Properties.RegisterTransfers | src/main.rs:197-213 | 6XNN sets VX, 8XY0 copies VY, and 7XNN adds NN modulo 256 without touching VF; only VX changes |
| Chip8Properties.NopAndJump | src/main.rs:142-156 | 0000 changes nothing; 1NNN sets PC to NNN and changes nothing else |
| Chip8Properties.IndexAndJumps | src/main.rs:304-322 | ANNN sets I; BNNN sets PC to NNN + V0 without wrapping; nothing else changes |
| Chip8Properties.IndexArithmetic | src/main.rs:400-420 | FX29 sets I to 5 * VX; FX1E sets I to I + VX, or faults on u16 overflow |
| Chip8Properties.FontCharAddressesGlyph | src/main.rs:418-420 | with the font installed and VX < 16, FX29 points I at the five font bytes of digit VX |
| Chip8Properties.TimerTransfers | src/main.rs:385-399 | FX07 copies the delay timer to VX; FX15 and FX18 copy VX to the delay and sound timers; nothing else changes |
| Chip8Properties.DelayRoundTrip | src/main.rs:385-399 | FX15 X then FX07 Y gives VY = VX; FX18 leaves the delay timer alone |
| Chip8Properties.IndexThenAdd | src/main.rs:304-310 | ANNN then FX1E (lines 400-405) leaves I = NNN + VX and never overflows |
| Chip8Properties.RandomMasked | src/main.rs:323-330 | CXNN: every bit of VX is the AND of the random byte's bit and NN's bit, VX <= NN, and only VX changes |
| Chip8Properties.ByteBits | src/main.rs:214-231 | each bit of OR, AND and XOR of two bytes is the OR, AND or XOR of their bits; AND <= its second operand and OR >= its first |
| Chip8Properties.BitwiseBit | src/main.rs:214-231 | bit k of a w-bit bitwise combination, for k < w, is the operator applied to bit k of each operand |
| Chip8Properties.SameBitsEqual | src/main.rs:214-231 | two numbers below 2^w with the same w low bits are equal |
| Chip8Properties.BitwiseBelow | src/main.rs:214-231 | a w-bit AND is at most its second operand, and a w-bit OR is at least its first |
| Chip8Properties.BitwiseOps | src/main.rs:214-231 | 8XY1/2/3 set each bit of VX to the OR/AND/XOR of the bits of VX and VY; only VX changes; AND <= VY and OR >= VX |
| Chip8Properties.XorTwice | src/main.rs:226-231 | XOR with the same byte twice gives the byte back |
| Chip8Properties.XorTwiceRestores | src/main.rs:226-231 | 8XY3 run twice with X != Y gives back the original machine |
| Chip8Properties.SkipsAdvanceExactlyWhenTaken | src/main.rs:168-196 | 3XNN, 4XNN, 5XY0, 9XY0, EX9E and EXA1 add 2 to PC exactly when their condition holds and otherwise leave the machine as it was; a taken skip at PC > 0xFFFD faults with AddressOverflow |
| Chip8Properties.KeySkipsFaultOnBadKey | src/main.rs:371-384 | EX9E and EXA1 fault when VX is not a key index |
| Chip8Properties.WaitKeyTakesLowestKey | src/main.rs:406-416 | FX0A sets VX to the lowest pressed key; with no key down the machine is unchanged |
| Chip8Properties.StoreBcdDigits | src/main.rs:421-440 | FX33 faults exactly when I + 2 is past memory; otherwise it writes three decimal digits whose value 100a + 10b + c is VX, and no other byte changes |
| Chip8Properties.StoreBcdExample | src/main.rs:421-440 | FX33 with VX = 157 writes 1, 5, 7 |
| Chip8Properties.StoreRegistersWrites | src/main.rs:441-449 | FX55 faults exactly when I + X is past memory; otherwise memory[I + j] = Vj for j <= X, and every other byte and the rest of the machine are unchanged |
| Chip8Properties.LoadRegistersReads | src/main.rs:450-457 | FX65 faults exactly when I + X is past memory; otherwise Vj = memory[I + j] for j <= X, and every other register and the rest of the machine are unchanged |
| Chip8Properties.StoreThenLoadRestores | src/main.rs:441-457 | FX55 then FX65 with the same I and X restores V0..VX |
| Chip8Properties.PixelIndexOfCell | src/main.rs:331-370 | every screen cell is the wrapped pixel index of the row and column RowAt and ColAt assign it |
| Chip8Properties.CellOfPixelIndex | src/main.rs:331-370 | an on-screen pixel index leads back to the sprite row and column it came from |
| Chip8Properties.NoDrawFaultRows | src/main.rs:331-370 | without a draw fault, every later sprite row is in memory and, if it has a set bit, on the screen |
| Chip8Properties.SetBitCovers | src/main.rs:331-370 | without a draw fault, every set sprite bit lands on a screen cell it covers |
| Chip8Properties.DrawTogglesSetBits | src/main.rs:331-370 | DXYN flips the pixel under every set sprite bit |
| Chip8Properties.DrawLeavesOtherPixels | src/main.rs:331-370 | DXYN leaves every pixel no set bit lands on, every register but VF, and the rest of the machine unchanged |
| Chip8Properties.CollisionIffHit | src/main.rs:345-364 | on a draw without fault, some covered pixel of the old screen is lit exactly when some set sprite bit lands on a lit pixel |
| Chip8Properties.DrawCollisionFlag | src/main.rs:331-370 | after DXYN, VF is 0 or 1, and it is 1 exactly when some set sprite bit lands on a pixel that was on |
| Chip8Properties.DrawTwiceRestoresScreen | src/main.rs:331-370 | drawing the same sprite twice (X and Y not F) gives the screen back; the second draw collides exactly when some covered pixel was off before the first |
| Chip8Properties.DrawFaultIffBadRow | src/main.rs:331-370 | DXYN reports no fault exactly when every sprite row passes the u16 check, lies in memory and, if it has a set bit, lies on the screen |
| Chip8Properties.DrawBelowScreenFaults | src/main.rs:331-370 | because Y wraps modulo 64, a sprite whose first row has a set bit and has VY = 40 faults with ScreenOutOfBounds |
| Chip8Properties.ClearTurnsAllOff | src/main.rs:143-146 | 00E0 turns every pixel off and changes nothing else |
| Chip8Properties.WaitKeyDoesNotBlock | src/main.rs:406-416 | a cycle over FX0A with no key down only advances PC by 2 |
| Chip8Properties.InvalidOpcodeFaults | src/main.rs:458 | execute reports InvalidOpcode(op) exactly when the match rejects op; 0x5001 is one such opcode |
| Chip8Properties.InstructionsNeverInvalid | src/main.rs:141-457 | running a decoded instruction never reports an invalid opcode |
| Chip8Properties.StepKeepsStackBounded | src/main.rs:87-96 | no cycle lets SP pass the stack's capacity |
| Chip8Interpreter.Chip8.constructor | src/main.rs:58-75 | builds fresh arrays, and its state is the `new` machine: zeros, PC = 0x200, the font at memory[0..80] |
| Chip8Interpreter.Chip8.LoadRom | src/main.rs:77-85 | proved against LoadRom; a refused ROM leaves memory unchanged |
| Chip8Interpreter.Chip8.PushToStack | src/main.rs:87-90 | proved against Push |
| Chip8Interpreter.Chip8.PopFromStack | src/main.rs:91-96 | proved against Pop; returns the popped value |
| Chip8Interpreter.Chip8.Reset | src/main.rs:98-110 | proved against Reset |
| Chip8Interpreter.Chip8.InstallFont | src/main.rs:104 | memory becomes the font followed by the old memory above the font |
| Chip8Interpreter.Chip8.ClearRegisters | src/main.rs:105-107 | registers, stack and keys become all zero or false; nothing else changes |
| Chip8Interpreter.Chip8.KeyPress | src/main.rs:485-487 | proved against KeyPress |
| Chip8Interpreter.Chip8.FetchInstruction | src/main.rs:112-137 | proved against Fetch; returns the opcode |
| Chip8Interpreter.Chip8.ExecuteInstruction | src/main.rs:139-460 | proved against Execute, including the invalid-opcode fault; an invalid opcode leaves the whole state untouched |
| Chip8Interpreter.Chip8.Step | src/main.rs:548-553 | one cycle (fetch, then execute), proved against Step |
| Chip8Interpreter.Chip8.RunInstruction | src/main.rs:141-457 | proved against Run for every decoded instruction |
| Chip8Interpreter.Chip8.RunControl | src/main.rs:141-167 | 0000, 00E0, 00EE, 1NNN, 2NNN, and ANNN and BNNN (lines 304-322), proved against ControlEffect |
| Chip8Interpreter.Chip8.RunSkip | src/main.rs:168-196 | 3XNN, 4XNN, 5XY0, 9XY0 (lines 294-302), and EX9E and EXA1 (lines 371-384), proved against SkipEffect |
| Chip8Interpreter.Chip8.RunArith | src/main.rs:197-293 | 6XNN, 7XNN and 8XY0..8XYE, proved against ArithEffect |
| Chip8Interpreter.Chip8.RunExchange | src/main.rs:385-399 | FX07, FX15, FX18, FX0A (lines 406-416) and CXNN (lines 323-330), proved against ExchangeEffect |
| Chip8Interpreter.Chip8.RunMemory | src/main.rs:418-457 | FX1E (lines 400-405), FX29, FX33, FX55, FX65 and DXYN (lines 331-370), proved against MemoryEffect |
| Chip8Interpreter.Chip8.ClearScreen | src/main.rs:143-146 | every pixel off; nothing else changes |
| Chip8Interpreter.Chip8.SkipIf | src/main.rs:168-177 | PC += 2 exactly when the condition holds, with the u16 overflow fault |
| Chip8Interpreter.Chip8.ExecReturn | src/main.rs:147-151 | 00EE, proved against ControlEffect |
| Chip8Interpreter.Chip8.ExecJump | src/main.rs:152-156 | proved against ControlEffect |
| Chip8Interpreter.Chip8.ExecCall | src/main.rs:158-167 | proved against ControlEffect, including the stack-overflow fault |
| Chip8Interpreter.Chip8.ExecLoadIndex | src/main.rs:304-310 | proved against ControlEffect |
| Chip8Interpreter.Chip8.ExecJumpOffset | src/main.rs:311-322 | proved against ControlEffect |
| Chip8Interpreter.Chip8.ExecSkipKey | src/main.rs:371-377 | proved against SkipEffect, including the key-index fault |
| Chip8Interpreter.Chip8.ExecSkipNoKey | src/main.rs:378-384 | proved against SkipEffect, including the key-index fault |
| Chip8Interpreter.Chip8.ExecLoadByte | src/main.rs:197-201 | proved against ArithEffect |
| Chip8Interpreter.Chip8.ExecAddByte | src/main.rs:203-207 | proved against ArithEffect |
| Chip8Interpreter.Chip8.ExecMove | src/main.rs:208-213 | proved against ArithEffect |
| Chip8Interpreter.Chip8.ExecOr | src/main.rs:214-219 | proved against ArithEffect |
| Chip8Interpreter.Chip8.ExecAnd | src/main.rs:220-225 | proved against ArithEffect |
| Chip8Interpreter.Chip8.ExecXor | src/main.rs:226-231 | proved against ArithEffect |
| Chip8Interpreter.Chip8.ExecAddReg | src/main.rs:232-245 | proved against ArithEffect, with VF written before VX |
| Chip8Interpreter.Chip8.ExecSubReg | src/main.rs:246-259 | proved against ArithEffect, with VF written before VX |
| Chip8Interpreter.Chip8.ExecShiftRight | src/main.rs:261-271 | proved against ArithEffect, with VF written last |
| Chip8Interpreter.Chip8.ExecSubNeg | src/main.rs:280-293 | proved against ArithEffect, with VF written before VX |
| Chip8Interpreter.Chip8.ExecShiftLeft | src/main.rs:272-279 | proved against ArithEffect, with VF written last |
| Chip8Interpreter.Chip8.ExecRandom | src/main.rs:323-330 | proved against ExchangeEffect, with the random byte as the parameter |
| Chip8Interpreter.Chip8.ExecGetDelay | src/main.rs:385-389 | proved against ExchangeEffect |
| Chip8Interpreter.Chip8.ExecWaitKey | src/main.rs:406-416 | proved against ExchangeEffect |
| Chip8Interpreter.Chip8.ExecSetDelay | src/main.rs:390-394 | proved against ExchangeEffect |
| Chip8Interpreter.Chip8.ExecSetSound | src/main.rs:395-399 | proved against ExchangeEffect |
| Chip8Interpreter.Chip8.ExecAddIndex | src/main.rs:400-405 | proved against MemoryEffect, including the u16 overflow fault |
| Chip8Interpreter.Chip8.ExecFontChar | src/main.rs:418-420 | proved against MemoryEffect |
| Chip8Interpreter.Chip8.FindPressedKey | src/main.rs:406-416 | the scan's result is the lowest pressed key, or None when no key is down, and equals FirstPressed |
| Chip8Interpreter.Chip8.ExecStoreBcd | src/main.rs:421-440 | proved against StoreDigits |
| Chip8Interpreter.Chip8.ExecStoreRegs | src/main.rs:441-449 | the loop, proved against StoreRegisters |
| Chip8Interpreter.Chip8.ExecLoadRegs | src/main.rs:450-457 | the loop, proved against LoadRegisters |
| Chip8Interpreter.Chip8.ExecDraw | src/main.rs:331-370 | the row and column loops, proved against DrawSprite: the screen becomes XorSprite of the old one and VF the collision flag, or the first fault is reported |
| Chip8Interpreter.Chip8.DrawRow | src/main.rs:344-359 | one row of the column loop: it toggles exactly the cells of that row's set bits and keeps the collision flag, or it faults on a wrapped row past the screen |
| Chip8Interpreter.DrawnNext | src/main.rs:344-359 | advancing the column loop by one adds exactly that row's cell for the column when its bit is set |

## Left out

- `draw` and `run`: SDL window, canvas and event pump. Only the fetch-then-execute body of the loop is modelled, as `Step`.
- `main`: reads the ROM file and starts the loop. File I/O is not modelled; a ROM is a byte sequence passed to `LoadRom`.
- `parse_key`: the SDL keycode table. Key events enter the model as `KeyPress` with a key index.
- `rand::random`: the CXNN random byte is the parameter `rnd` of `Run`, `Execute` and `Step`.
- `println!` and the other console output: no effect on the state.
- The 60 Hz timer countdown and the sound output: the code performs neither, so the timers change only through FX15 and FX18.
- The `f64` arithmetic in FX33: modelled as the integer digits it computes for every byte.
- The machine after a fault: the Rust program aborts, so an `Err` carries no state. The interpreter methods promise only the fault, not the partly written arrays. For example, FX55 may already have written some bytes before it faults.
- `opcode`: the struct field is set by `new` and `reset` and never changed by anything else, and the model does the same.
- u16 overflow is modelled as a debug build reports it: a fault. A release build would wrap instead, and this is not modelled.
