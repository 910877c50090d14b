# CHIP-8 interpreter core, modelled in Dafny

The system is a CHIP-8 emulator. A `Chip8` object holds the machine state:
- 16 byte registers V0 to VF;
- 4 KiB of byte memory;
- the 16-bit index register I and program counter;
- a 16-level return stack with its pointer;
- the delay and sound timers;
- the 16-key keypad;
- a 64 x 32 monochrome framebuffer;
- the last opcode fetched.

One `Cycle` fetches the big-endian word at pc, advances pc by 2 and dispatches the word. The top nibble selects a handler in a primary table. Four families re-dispatch through secondary tables:
- 0x0, 0x8 and 0xE, indexed by the low nibble;
- 0xF, indexed by the low byte.

Every unused slot holds `OP_NULL`.

The model has six modules:
- **`Wrappers`**: the `Option` datatype.
- **`Bytes`**: 8- and 16-bit truncation, AND/OR/XOR defined bit by bit, and the decimal digits stored by `Fx33`.
- **`Dispatch`**:
  - the instruction fields (`Top`, `X`, `Y`, `N`, `KK`, `NNN`);
  - the primary and secondary tables as data, with their declared sizes;
  - the dispatch as written (`AsWrittenDecode`) and with the index checked (`Decode`);
  - `Reference`, a strict decoding of the instruction set from section 3.1 of Cowgod's Chip-8 Technical Reference: an independent decoding that `Decode` is proved to agree with.
- **`Framebuffer`**: the pure meaning of a sprite draw.
  - `Draw` XORs the sprite, with wrap-around at the right and bottom edges.
  - `Collides` says whether a lit pixel was hit.
  - Lemmas: drawing twice restores the screen; the collision flag means some lit pixel went dark.
- **`Semantics`**: the machine's constants and its state as a value.
  - `Snapshot` holds every field a handler reads or writes.
  - `Effect` is what each instruction does to a snapshot, by the handler `Decode` selects.
  - `Outcome` is what a cycle reports.
  - `Step` is one fetch followed by `Effect`.
  - Lemmas about `Effect` and `Step` cover several instructions together: skips land 4 or 2 past the instruction; the key wait repeats the instruction; a call followed by a return comes back just past the call; a register store followed by a load gives the registers back; the same sprite drawn twice restores the screen, and the second draw sets VF exactly when the first lit a pixel. Further lemmas say which handlers can write which part of the state.
- **`Machine`**: class `Chip8`, whose fields match the header's.
  - It has one method per opcode handler and one per family table.
  - `Execute` is the primary dispatch and `Cycle` is fetch plus execute.
  - Each handler's `ensures` gives the whole new state: the old `Snap()` with just the fields the handler writes replaced.
  - Each family method, `Execute` and `Cycle` is proved to leave the state that `Effect` or `Step` gives for the old one. So what a cycle does is stated once, for every instruction.
  - Four methods, `ExecuteJump`, `ExecuteSkip`, `ExecuteLoad` and `ExecuteSprite`, group the primary table's direct entries. This keeps each proof small. The machine itself calls those handlers straight from `table`.
  - Loops (`00E0`, `Dxyn`, `Fx0A`, `Fx55`, `Fx65`, the font copy, the image copy) carry their invariants.
  - The loops are specified by pure functions (`Draw`, `StoreRegisters`, `LoadRegisters`), and `Bcd` specifies the three writes of `Fx33`. Lemmas are proved about those functions.

The model follows the header `Chip8/Chip8.h`: its declarations and its comment on each opcode. Chip8.cpp is not part of this model. The handler bodies follow the header's comments and the Cowgod reference they paraphrase. The choices the header leaves open, and the places where the model departs from that reference, are listed under "## Left out".

## Model

| member | source | states |
|---|---|---|
| Bytes.Trunc8 | Chip8/Chip8.h:20 | the byte kept from a wider result is congruent to it mod 256 and equals it when it already fits |
| Bytes.Trunc16 | Chip8/Chip8.h:22-23 | a 16-bit register keeps its value mod 65536, and a value that fits is kept unchanged |
| Bytes.Trunc16Twice | Chip8/Chip8.h:23 | two 16-bit pc advances wrap like their sum, so a skip's "+2 after the fetch" is "+4" overall |
| Bytes.Bitwise | Chip8/Chip8.h:81-86 | the bit-by-bit combination of two numbers over w bits is below 2^w |
| Bytes.BitwiseBit | Chip8/Chip8.h:81-86 | bit i of the result is the AND/OR/XOR of bit i of each operand, for every i below the width |
| Bytes.BitOr | Chip8/Chip8.h:81-82 | each of the 8 bits of a OR b is set iff it is set in a or in b |
| Bytes.BitAnd | Chip8/Chip8.h:83-84 | each of the 8 bits of `a & b` is set iff it is set in both a and b |
| Bytes.BitXor | Chip8/Chip8.h:85-86 | each of the 8 bits of `a ^ b` is set iff it is set in exactly one of a and b |
| Bytes.BitwiseAndBound | Chip8/Chip8.h:83-84 | AND never exceeds its second operand b, the mask, when b fits in the width |
| Bytes.BitwiseCommutes | Chip8/Chip8.h:81-86 | AND, OR and XOR are commutative |
| Bytes.BitAndBound | Chip8/Chip8.h:103-104 | a byte ANDed with kk is at most kk and at most the byte, so `Cxkk` never exceeds its mask |
| Bytes.BitwiseXorTwice | Chip8/Chip8.h:85-86 | XOR with the same value twice gives back the original |
| Bytes.BitXorTwice | Chip8/Chip8.h:85-86 | `8xy3` applied twice with the same Vy restores Vx |
| Bytes.TestBitShift | Chip8/Chip8.h:105-106 | bit i of a number is `(a >> i) & 1`, the remainder mod 2 after dividing by 2^i |
| Bytes.Bcd | Chip8/Chip8.h:123-124 | three digits each below 10 whose weighted sum 100a + 10b + c is the byte |
| Bytes.BcdBySteps | Chip8/Chip8.h:123-124 | the digits come out of repeated division by ten, least significant first |
| Bytes.BcdExamples | Chip8/Chip8.h:123-124 | 255 gives 2, 5, 5 and 7 gives 0, 0, 7 |
| Dispatch.Top | Chip8/Chip8.h:34 | the primary table index is a nibble, below 0xF + 1 |
| Dispatch.X | Chip8/Chip8.h:20 | the Vx field indexes one of the 16 registers |
| Dispatch.Y | Chip8/Chip8.h:20 | the Vy field indexes one of the 16 registers |
| Dispatch.N | Chip8/Chip8.h:35-37 | the low-nibble index is below 16 |
| Dispatch.KK | Chip8/Chip8.h:69-70 | the kk byte is the y and n nibbles side by side |
| Dispatch.NNN | Chip8/Chip8.h:65-66 | the address field is below 0x1000 |
| Dispatch.FieldsCompose | Chip8/Chip8.h:30 | the top nibble and nnn tile the word, and so do x and kk |
| Dispatch.PrimaryFamilies | Chip8/Chip8.h:34 | the primary table sends exactly the top nibbles 0x0, 0x8, 0xE and 0xF to a secondary table, and every other nibble to a real handler |
| Dispatch.SlotsFilled | Chip8/Chip8.h:35-38 | the filled slots are 0 and E of `table0`, 0 to 7 and E of `table8`, 1 and E of `tableE`, and the nine F-instruction bytes of `tableF`; every other slot is OP_NULL |
| Dispatch.TableSizes | Chip8/Chip8.h:35-38 | each secondary table's declared size is one past its last filled slot: every filled slot is inside the table, and the last slot is filled |
| Dispatch.Decode | Chip8/Chip8.h:33-45 | agrees with the table dispatch wherever that dispatch stays inside its arrays, and is OP_NULL elsewhere |
| Dispatch.DecodeDirect | Chip8/Chip8.h:34-43 | each non-family nibble selects its one handler; families 0x0, 0x8, 0xE and 0xF reach only their own handlers or OP_NULL |
| Dispatch.FamilyKinds | Chip8/Chip8.h:40-43 | families 0x0, 0x8 and 0xF never skip, family 0x8 always falls through, and family 0xE only skips or does nothing |
| Dispatch.DecodeAgreesWithReference | Chip8/Chip8.h:61-128 | every word the reference instruction set defines reaches the handler for that instruction |
| Dispatch.NullOnlyForUndefined | Chip8/Chip8.h:45 | a word dispatched to OP_NULL is undefined in the reference |
| Dispatch.LooseDecodeExamples | Chip8/Chip8.h:35-37 | the secondary dispatch reads only its index field, so 0x0230, 0x5121 and 0xE1FE still reach CLS, SE and SKP; the zero word 0x0000 clears the screen and the undefined SYS word 0x012E returns from a subroutine, although all five are undefined |
| Dispatch.AsWrittenOverruns | Chip8/Chip8.h:34-38 | `AsWrittenDecode` reads past an array exactly when: the family is 0x0, 0x8 or 0xE and n = 0xF; or the family is 0xF and kk > 0x65 |
| Dispatch.AsWrittenOverrunExamples | Chip8/Chip8.h:35-38 | 0x000F, 0x812F, 0xE00F and 0xF0FF read past their tables, and Decode sends them to OP_NULL |
| Framebuffer.Wrap | Chip8/Chip8.h:105-106 | a coordinate wraps into the screen and is the remainder mod the screen size |
| Framebuffer.PixelAt | Chip8/Chip8.h:29 | sprite pixel (row, col) lands in the framebuffer at column (x0 + col) mod 64 of row (y0 + row) mod 32 |
| Framebuffer.SpriteBitIsMask | Chip8/Chip8.h:105-106 | sprite column col is lit iff `(b >> (7 - col)) & 1` is 1, so column 0 is the byte's high bit |
| Framebuffer.Draw | Chip8/Chip8.h:105-106 | the framebuffer after XOR-ing a sprite keeps its 2048 pixels |
| Framebuffer.PixelOffsets | Chip8/Chip8.h:105-106 | the landing pixel of sprite pixel (row, col) lies row rows and col columns from the origin, wrapping |
| Framebuffer.PixelOfOffsets | Chip8/Chip8.h:105-106 | every pixel is the landing place of its own offsets, so distinct sprite pixels land on distinct pixels |
| Framebuffer.HitStep | Chip8/Chip8.h:105-106 | drawing one more sprite pixel toggles exactly the one framebuffer pixel it lands on |
| Framebuffer.RowDone | Chip8/Chip8.h:105-106 | finishing a sprite row is the same as starting the next one |
| Framebuffer.DrawTwice | Chip8/Chip8.h:105-106 | drawing the same sprite twice at the same place restores the framebuffer |
| Framebuffer.CollidesIffPixelCleared | Chip8/Chip8.h:105-106 | `Collides`, and so VF = collision, holds exactly when the draw switches some lit pixel off |
| Framebuffer.SecondDrawCollides | Chip8/Chip8.h:105-106 | an example: on a screen that is dark under the sprite, the first draw does not collide and the second does |
| Framebuffer.RedrawCollidesIffLit | Chip8/Chip8.h:105-106 | drawing the same sprite again collides exactly when the first draw lit some pixel that was dark |
| Framebuffer.WrapsAtEdges | Chip8/Chip8.h:105-106 | a sprite at (60, 31) continues at column 0 and row 0 |
| Semantics.FontInReservedMemory | Chip8/Chip8.h:49 | the 16 five-byte glyphs from 0x50 lie below the start address 0x200 |
| Semantics.Addr | Chip8/Chip8.h:8 | an address selects a cell of the 4096, congruent to it mod 4096; an address inside memory is itself |
| Semantics.AddrNext | Chip8/Chip8.h:8 | the address after the top cell is cell 0 |
| Semantics.Fetch | Chip8/Chip8.h:30 | the opcode's high byte is the first byte fetched and its low byte the second |
| Semantics.SpriteRows | Chip8/Chip8.h:105-106 | the n sprite rows are the n bytes from I on |
| Semantics.Offset | Chip8/Chip8.h:125-128 | a cell's distance from the base, wrapping, leads back to that cell |
| Semantics.StoreRegisters | Chip8/Chip8.h:125-126 | the memory image after the store keeps all 4096 cells |
| Semantics.LoadRegisters | Chip8/Chip8.h:127-128 | the register file after the load keeps all 16 registers |
| Semantics.StoreRegistersCells | Chip8/Chip8.h:125-126 | `Fx55` writes Vi at I + i for each i up to x and no cell outside those x + 1 |
| Semantics.LoadAfterStore | Chip8/Chip8.h:125-128 | `Fx65` after `Fx55` with the same x and I restores V0 to Vx and leaves the registers above x as they were |
| Semantics.Blank | Chip8/Chip8.h:61-62 | the cleared framebuffer has 2048 pixels, all dark |
| Semantics.FirstKeyDown | Chip8/Chip8.h:113-114 | the result is the lowest key that is down, or 16 when none is: every key below it is up, and the key it names is down |
| Semantics.Effect | Chip8/Chip8.h:61-128 | every instruction keeps the state's sizes and the sp bound, and leaves the opcode as it was |
| Semantics.EffectRandom | Chip8/Chip8.h:103-104 | `Cxkk` sets Vx to the supplied random byte AND kk and changes nothing else |
| Semantics.Outcome | Chip8/Chip8.h:63-68 | a cycle reports a stack overflow exactly for a call with all 16 levels in use, and an underflow exactly for a return with none |
| Semantics.Fetched | Chip8/Chip8.h:130-132 | the fetched opcode's high byte is the cell at pc and its low byte the next cell; pc moves 2 on and nothing else changes |
| Semantics.Step | Chip8/Chip8.h:130-132 | one cycle keeps the state's sizes and the sp bound |
| Semantics.StepSkips | Chip8/Chip8.h:69-74 | a skip changes only pc, which ends 4 past the instruction when the condition holds and 2 past it when not |
| Semantics.StepFallsThrough | Chip8/Chip8.h:130-132 | every instruction that neither skips, jumps, calls, returns nor waits for a key leaves pc 2 past itself |
| Semantics.StepIdles | Chip8/Chip8.h:45 | an OP_NULL word, a call with the stack full and a return with it empty change nothing beyond the fetch |
| Semantics.StepWaitsForKey | Chip8/Chip8.h:113-114 | `Fx0A` with no key down leaves pc on itself, so the next cycle fetches it again; only the opcode changes |
| Semantics.StepTakesKey | Chip8/Chip8.h:113-114 | `Fx0A` with some key down stores the lowest key that is down in Vx and moves on by 2 |
| Semantics.EffectCall | Chip8/Chip8.h:67-68 | `2nnn` with room on the stack pushes pc, raises sp and jumps to nnn |
| Semantics.EffectRet | Chip8/Chip8.h:63-64 | `00EE` with a nonempty stack lowers sp and jumps to the address on top |
| Semantics.CallThenReturn | Chip8/Chip8.h:63-68 | a call to a subroutine that starts with `00EE`: two cycles later pc is just past the call and sp is restored; the stack slot keeps the return address; nothing else has changed |
| Semantics.EffectStore | Chip8/Chip8.h:125-126 | `Fx55` replaces memory by StoreRegisters of V0 to Vx at I |
| Semantics.EffectLoad | Chip8/Chip8.h:127-128 | `Fx65` replaces the registers by LoadRegisters of V0 to Vx from I |
| Semantics.StoreThenLoad | Chip8/Chip8.h:125-128 | `Fx65` after `Fx55` with the same x gives every register back and keeps the stored memory and I |
| Semantics.DrawTwiceRestores | Chip8/Chip8.h:105-106 | running the same `Dxyn` twice restores the framebuffer when neither coordinate register is VF |
| Semantics.RedrawSetsFlag | Chip8/Chip8.h:105-106 | running the same `Dxyn` twice, with neither coordinate register VF, leaves VF = 1 exactly when the first run lit some pixel, and VF = 0 otherwise |
| Semantics.EffectWritesMemoryAndScreen | Chip8/Chip8.h:61-128 | only `Fx33` and `Fx55` write memory, and only `00E0` and `Dxyn` write the framebuffer |
| Semantics.EffectWritesControl | Chip8/Chip8.h:61-128 | only `2nnn` writes the stack, only `2nnn` and `00EE` move sp, and only the jumps, calls, returns, skips and the key wait write pc |
| Semantics.EffectWritesRegisters | Chip8/Chip8.h:61-128 | only the handlers with a register destination, and `Dxyn` through VF, write V0 to VF |
| Semantics.EffectWritesIndex | Chip8/Chip8.h:99-122 | only `Annn`, `Fx1E` and `Fx29` write I |
| Semantics.EffectWritesTimers | Chip8/Chip8.h:115-118 | only `Fx15` writes the delay timer and only `Fx18` the sound timer |
| Machine.Chip8.Snap | Chip8/Chip8.h:20-30 | the class's fields read out as a value keep their declared sizes and the sp bound |
| Machine.Chip8.constructor | Chip8/Chip8.h:20-30 | all state starts at zero, pc at 0x200, and the font is in memory from 0x50 |
| Machine.Chip8.LoadFont | Chip8/Chip8.h:55 | the 80 font bytes are copied to 0x50 and no other cell changes |
| Machine.Chip8.LoadImage | Chip8/Chip8.h:57 | an image that fits above 0x200 is copied there and memory elsewhere is unchanged; a larger one is refused |
| Machine.Chip8.Op00E0 | Chip8/Chip8.h:61-62 | every pixel is dark and nothing else changes |
| Machine.Chip8.Op00EE | Chip8/Chip8.h:63-64 | sp drops by one, pc is the address on top of the stack, and nothing else changes |
| Machine.Chip8.Op1nnn | Chip8/Chip8.h:65-66 | pc = nnn and nothing else changes |
| Machine.Chip8.Op2nnn | Chip8/Chip8.h:67-68 | the old pc is pushed, sp rises by one, pc = nnn, and the other stack slots and all other state are untouched |
| Machine.Chip8.Op3xkk | Chip8/Chip8.h:69-70 | pc advances by 2 exactly when Vx = kk; nothing else changes |
| Machine.Chip8.Op4xkk | Chip8/Chip8.h:71-72 | pc advances by 2 exactly when Vx != kk; nothing else changes |
| Machine.Chip8.Op5xy0 | Chip8/Chip8.h:73-74 | pc advances by 2 exactly when Vx = Vy; nothing else changes |
| Machine.Chip8.Op6xkk | Chip8/Chip8.h:75-76 | Vx = kk and all other state unchanged |
| Machine.Chip8.Op7xkk | Chip8/Chip8.h:77-78 | Vx = (Vx + kk) mod 256 and all other state unchanged, VF included |
| Machine.Chip8.Op8xy0 | Chip8/Chip8.h:79-80 | Vx = Vy and all other state unchanged |
| Machine.Chip8.Op8xy1 | Chip8/Chip8.h:81-82 | Vx = Vx OR Vy and all other state unchanged |
| Machine.Chip8.Op8xy2 | Chip8/Chip8.h:83-84 | Vx = Vx AND Vy and all other state unchanged |
| Machine.Chip8.Op8xy3 | Chip8/Chip8.h:85-86 | Vx = Vx XOR Vy and all other state unchanged |
| Machine.Chip8.Op8xy4 | Chip8/Chip8.h:87-88 | Vx = (Vx + Vy) mod 256, VF = 1 iff the sum exceeds 255, and all other state unchanged |
| Machine.Chip8.Op8xy5 | Chip8/Chip8.h:89-90 | Vx = (Vx - Vy) mod 256, VF = 1 iff Vx >= Vy (NOT borrow), and all other state unchanged |
| Machine.Chip8.Op8xy6 | Chip8/Chip8.h:91-92 | Vx = Vx / 2, VF = the bit shifted out, and all other state unchanged |
| Machine.Chip8.Op8xy7 | Chip8/Chip8.h:93-94 | Vx = (Vy - Vx) mod 256, VF = 1 iff Vy >= Vx (NOT borrow), and all other state unchanged |
| Machine.Chip8.Op8xyE | Chip8/Chip8.h:95-96 | Vx = 2 Vx mod 256, VF = the bit shifted out, and all other state unchanged |
| Machine.Chip8.Op9xy0 | Chip8/Chip8.h:97-98 | pc advances by 2 exactly when Vx != Vy; nothing else changes |
| Machine.Chip8.OpAnnn | Chip8/Chip8.h:99-100 | I = nnn and nothing else changes |
| Machine.Chip8.OpBnnn | Chip8/Chip8.h:101-102 | pc = nnn + V0 and nothing else changes |
| Machine.Chip8.OpCxkk | Chip8/Chip8.h:103-104 | Vx = random AND kk and all other state unchanged |
| Machine.Chip8.OpDxyn | Chip8/Chip8.h:105-106 | the framebuffer becomes Draw of the n-byte sprite at I at (Vx mod 64, Vy mod 32), VF = 1 iff Collides, and all other state is unchanged |
| Machine.Chip8.DrawSprite | Chip8/Chip8.h:105-106 | the row loop leaves the framebuffer as Draw of the whole sprite, and reports a collision iff Collides |
| Machine.Chip8.DrawSpriteRow | Chip8/Chip8.h:105-106 | one sprite row toggles the pixels its lit bits land on and accumulates the collision |
| Machine.Chip8.OpEx9E | Chip8/Chip8.h:107-108 | pc advances by 2 exactly when the key numbered by Vx is down; nothing else changes |
| Machine.Chip8.OpExA1 | Chip8/Chip8.h:109-110 | pc advances by 2 exactly when that key is up; nothing else changes |
| Machine.Chip8.OpFx07 | Chip8/Chip8.h:111-112 | Vx = the delay timer and all other state unchanged |
| Machine.Chip8.OpFx0A | Chip8/Chip8.h:113-114 | with a key down, Vx is the lowest key that is down and pc stays; with none down, pc steps back 2 so the instruction repeats; nothing else changes |
| Machine.Chip8.OpFx15 | Chip8/Chip8.h:115-116 | delay timer = Vx and nothing else changes |
| Machine.Chip8.OpFx18 | Chip8/Chip8.h:117-118 | sound timer = Vx and nothing else changes |
| Machine.Chip8.OpFx1E | Chip8/Chip8.h:119-120 | I = (I + Vx) mod 65536 and nothing else changes |
| Machine.Chip8.OpFx29 | Chip8/Chip8.h:121-122 | I = the address of the five-byte glyph of digit Vx and nothing else changes |
| Machine.Chip8.OpFx33 | Chip8/Chip8.h:123-124 | memory at I, I + 1 and I + 2 holds the hundreds, tens and ones digits of Vx, and nothing else changes |
| Machine.Chip8.OpFx55 | Chip8/Chip8.h:125-126 | memory becomes StoreRegisters: V0 to Vx from I on; everything else unchanged |
| Machine.Chip8.OpFx65 | Chip8/Chip8.h:127-128 | the registers become LoadRegisters: V0 to Vx from the memory at I on; everything else unchanged |
| Machine.Chip8.Table0 | Chip8/Chip8.h:40 | family 0x0 leaves the state `Effect` gives: CLS, RET, or nothing for an unused slot; a return with an empty stack is reported as `Outcome` says and its handler is not run |
| Machine.Chip8.Table8 | Chip8/Chip8.h:41 | family 0x8 leaves the state `Effect` gives for the ALU instruction, or for OP_NULL |
| Machine.Chip8.TableE | Chip8/Chip8.h:42 | family 0xE leaves the state `Effect` gives for SKP, SKNP or OP_NULL |
| Machine.Chip8.TableF | Chip8/Chip8.h:43 | family 0xF leaves the state `Effect` gives for each of its nine instructions or OP_NULL |
| Machine.Chip8.ExecuteJump | Chip8/Chip8.h:34 | `1nnn`, `2nnn` and `Bnnn` leave the state `Effect` gives, and a call with the stack full is reported as `Outcome` says and not run |
| Machine.Chip8.ExecuteSkip | Chip8/Chip8.h:34 | `3xkk`, `4xkk`, `5xy0` and `9xy0` leave the state `Effect` gives |
| Machine.Chip8.ExecuteLoad | Chip8/Chip8.h:34 | `6xkk`, `7xkk` and `Cxkk` leave the state `Effect` gives for the supplied random byte |
| Machine.Chip8.ExecuteSprite | Chip8/Chip8.h:34 | `Annn` and `Dxyn` leave the state `Effect` gives |
| Machine.Chip8.Execute | Chip8/Chip8.h:34-45 | whatever the opcode, the new state is `Effect` of the old one, and the status is its `Outcome` |
| Machine.Chip8.Cycle | Chip8/Chip8.h:130-132 | the new state is `Step` of the old one: fetch the big-endian word at pc, advance pc by 2, then `Effect`. The status is the fetched word's `Outcome`. `Fx0A` with no key down leaves pc and the registers as they were |

## Left out

- Chip8.cpp is not part of this model. The header declares every handler but shows no body. Each body here follows the header's comment on the opcode and section 3.1 of Cowgod's Chip-8 Technical Reference, except where a line below says otherwise.
- LoadROM file I/O is not modelled: `LoadImage` takes the file's bytes as a sequence. An image too large for memory is refused rather than written past the array.
- The random generator at Chip8/Chip8.h:51-52 (`std::default_random_engine` and `uniform_int_distribution`) is not modelled. `OpCxkk` and `Cycle` take the random byte as a parameter.
- Timers counting down, sound, rendering, host keypad input and the clock are not modelled: they live outside the class.
- The method-pointer tables are data in `Dispatch` rather than arrays of member pointers. The four family methods and `Execute` follow them with a `match`.
- Framebuffer pixels are `bool` rather than the header's `uint32_t` words. The word value that stands for a lit pixel is set in Chip8.cpp, which is not part of this model. The model assumes a pixel only ever holds one of two values, dark or lit, and that `Dxyn` toggles between them.
- Addresses wrap at 4096 (`Addr`) wherever I + offset or pc + 1 could run past memory. The header leaves that case undefined.
- `Ex9E` and `ExA1` take the key number as Vx mod 16. The header leaves a key number above 15 undefined.
- `Fx29` does not mask Vx. A value above 15 points past the glyphs, as in the reference.
- The `8xy4` to `8xyE` handlers write Vx first and VF last. When x = F, VF therefore ends as the flag, not the arithmetic result. Cowgod's text sets VF before Vx, so the two differ when x = F: on 0x8FF4 with VF = 0x80 the model leaves VF = 1, where Cowgod's order leaves 0x00.
- Machine.Chip8.Op00EE requires a nonempty stack and Machine.Chip8.Op2nnn a non-full one. The header has no check. `Cycle` refuses the instruction with `StackUnderflow` or `StackOverflow` instead of indexing outside the stack.
- `2nnn` stores pc at `stack[sp]` and then increments sp, and `00EE` decrements sp and then reads `stack[sp]`. So sp runs from 0 to 16 and the first call uses slot 0. Cowgod's text increments sp before storing and reads the top before decrementing, so its first call uses slot 1. Both orders return to the same place.
- The font's location and contents are assumptions: the header declares neither. The glyph bytes (`Semantics.FONTSET`) are the sixteen hexadecimal digit sprites of section 2.4 of Cowgod's reference. Their base address is the named constant `FONTSET_START_ADDRESS` = 0x50, below the start address 0x200. The constructor's contract promises both.
- `Fx0A` stores the lowest-numbered key that is down when several are down (`Semantics.FirstKeyDown`, and the scan in `Machine.Chip8.OpFx0A`). The header's "store value of key in Vx" leaves that choice open.
- `Fx55` and `Fx65` leave I unchanged. The header's comments do not mention I changing, so the model keeps it. Some interpreters advance I instead.
- Machine.Chip8.Op8xy5 and Machine.Chip8.Op8xy7 set VF = 1 when the operands are equal, following the header's "VF = NOT borrow". Section 3.1 of Cowgod's reference says VF = 1 only when the minuend is strictly greater, so the two differ at equality.
- `Valid`, `Collides`, `SpriteBit`, `Primary`, the four slot functions and `AsWrittenDecode` have no `ensures` of their own. What they mean is stated by `Snap` and the methods' contracts, and by the lemmas `CollidesIffPixelCleared`, `SpriteBitIsMask`, `PrimaryFamilies`, `SlotsFilled`, `TableSizes` and `AsWrittenOverruns`.

## Findings

| source | as written | input that shows it | evidently intended | confidence | as-written member | corrected member |
|---|---|---|---|---|---|---|
| Chip8/Chip8.h:35-38 | `table0`, `table8` and `tableE` have 0xE + 1 slots but are indexed by a 4-bit nibble. `tableF` has 0x65 + 1 slots but is indexed by the whole low byte. | opcodes 0x000F, 0x812F, 0xE00F and 0xF0FF read past the end of their table | every index a field can hold selects a slot, and the unused ones select OP_NULL | not executed | Dispatch.AsWrittenDecode, Dispatch.AsWrittenOverruns | Dispatch.Decode |
