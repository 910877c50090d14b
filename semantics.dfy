/** What one CHIP-8 instruction does, as a function of the machine state:
    the sizes and constants of the machine, the memory addressing, the
    effect of every handler on a snapshot of the state, and one cycle as
    fetch followed by that effect. The class in module Machine is proved
    to implement these functions. */
module Semantics {
  import opened Bytes
  import opened Dispatch
  import opened Framebuffer

  const KEY_COUNT := 16
  const MEMORY_SIZE := 4096
  const REGISTER_COUNT := 16
  const STACK_LEVELS := 16

  /** Where a program image is loaded and execution starts. */
  const START_ADDRESS := 0x200

  /** Where the built-in hexadecimal font lives in the reserved low memory. */
  const FONTSET_START_ADDRESS := 0x50

  /** Each font glyph is a sprite five rows high. */
  const FONT_GLYPH_BYTES := 5

  /** The flag register VF. */
  const VF := 0xF

  /** The glyphs 0 to F of section 2.4 of Cowgod's Chip-8 Technical Reference. */
  const FONTSET: seq<Byte> := [
    0xF0, 0x90, 0x90, 0x90, 0xF0,  // 0
    0x20, 0x60, 0x20, 0x20, 0x70,  // 1
    0xF0, 0x10, 0xF0, 0x80, 0xF0,  // 2
    0xF0, 0x10, 0xF0, 0x10, 0xF0,  // 3
    0x90, 0x90, 0xF0, 0x10, 0x10,  // 4
    0xF0, 0x80, 0xF0, 0x10, 0xF0,  // 5
    0xF0, 0x80, 0xF0, 0x90, 0xF0,  // 6
    0xF0, 0x10, 0x20, 0x40, 0x40,  // 7
    0xF0, 0x90, 0xF0, 0x90, 0xF0,  // 8
    0xF0, 0x90, 0xF0, 0x10, 0xF0,  // 9
    0xF0, 0x90, 0xF0, 0x90, 0x90,  // A
    0xE0, 0x90, 0xE0, 0x90, 0xE0,  // B
    0xF0, 0x80, 0x80, 0x80, 0xF0,  // C
    0xE0, 0x90, 0x90, 0x90, 0xE0,  // D
    0xF0, 0x80, 0xF0, 0x80, 0xF0,  // E
    0xF0, 0x80, 0xF0, 0x80, 0x80   // F
  ]

  /** The font fits in the reserved area below the program. */
  lemma FontInReservedMemory(digit: nat)
    requires digit < 0x10
    ensures |FONTSET| == 0x10 * FONT_GLYPH_BYTES
    ensures FONTSET_START_ADDRESS + FONT_GLYPH_BYTES * digit + FONT_GLYPH_BYTES <= START_ADDRESS
  {
  }

  /** The memory cell an address selects; addresses wrap at the 4 KiB
      address space. */
  function Addr(a: nat): (i: nat)
    ensures i < MEMORY_SIZE
    ensures a < MEMORY_SIZE ==> i == a
    ensures (a - i) % MEMORY_SIZE == 0
  {
    a % MEMORY_SIZE
  }

  /** The address after a, wrapping from the top of memory to 0. */
  lemma AddrNext(a: nat)
    ensures Addr(a + 1) == if Addr(a) == MEMORY_SIZE - 1 then 0 else Addr(a) + 1
  {
    var q := a / MEMORY_SIZE;
    assert a == q * MEMORY_SIZE + Addr(a);
    if Addr(a) == MEMORY_SIZE - 1 {
      assert a + 1 == (q + 1) * MEMORY_SIZE;
    } else {
      assert a + 1 == q * MEMORY_SIZE + (Addr(a) + 1);
    }
  }

  /** The instruction word whose high byte is hi and low byte is lo. */
  function Fetch(hi: Byte, lo: Byte): (w: Word)
    ensures w / 0x100 == hi && w % 0x100 == lo
  {
    hi * 0x100 + lo
  }

  /** The n sprite rows that `Dxyn` reads starting at address i. */
  function SpriteRows(mem: seq<Byte>, i: nat, n: nat): (rows: seq<Byte>)
    requires |mem| == MEMORY_SIZE
    ensures |rows| == n
    ensures forall r :: 0 <= r < n ==> rows[r] == mem[Addr(i + r)]
  {
    seq(n, r requires 0 <= r => mem[Addr(i + r)])
  }

  /** How far past base, wrapping at the address space, cell a lies. */
  function Offset(base: nat, a: nat): (d: nat)
    requires base < MEMORY_SIZE && a < MEMORY_SIZE
    ensures d < MEMORY_SIZE && Addr(base + d) == a
  {
    if a >= base then a - base else a + MEMORY_SIZE - base
  }

  /** Memory after `Fx55`: registers V0 to Vx at base, base + 1, ...,
      every other cell as before. */
  function StoreRegisters(mem: seq<Byte>, regs: seq<Byte>, base: nat, x: nat): (m: seq<Byte>)
    requires |mem| == MEMORY_SIZE && |regs| == REGISTER_COUNT && base < MEMORY_SIZE && x < REGISTER_COUNT
    ensures |m| == MEMORY_SIZE
  {
    seq(MEMORY_SIZE, a requires 0 <= a < MEMORY_SIZE =>
      if Offset(base, a) <= x then regs[Offset(base, a)] else mem[a])
  }

  /** Registers after `Fx65`: V0 to Vx from base, base + 1, ..., every
      other register as before. */
  function LoadRegisters(regs: seq<Byte>, mem: seq<Byte>, base: nat, x: nat): (r: seq<Byte>)
    requires |mem| == MEMORY_SIZE && |regs| == REGISTER_COUNT && base < MEMORY_SIZE && x < REGISTER_COUNT
    ensures |r| == REGISTER_COUNT
  {
    seq(REGISTER_COUNT, i requires 0 <= i < REGISTER_COUNT =>
      if i <= x then mem[Addr(base + i)] else regs[i])
  }

  /** `Fx55` writes exactly the x + 1 cells from base on. */
  lemma StoreRegistersCells(mem: seq<Byte>, regs: seq<Byte>, base: nat, x: nat, i: nat, a: nat)
    requires |mem| == MEMORY_SIZE && |regs| == REGISTER_COUNT && base < MEMORY_SIZE && x < REGISTER_COUNT
    requires i <= x && a < MEMORY_SIZE
    ensures StoreRegisters(mem, regs, base, x)[Addr(base + i)] == regs[i]
    ensures Offset(base, a) > x ==> StoreRegisters(mem, regs, base, x)[a] == mem[a]
  {
    assert Offset(base, Addr(base + i)) == i;
  }

  /** `Fx65` after `Fx55` with the same x and the same I gives back V0 to
      Vx exactly and leaves the registers above x as they were. */
  lemma LoadAfterStore(mem: seq<Byte>, regs: seq<Byte>, other: seq<Byte>, base: nat, x: nat)
    requires |mem| == MEMORY_SIZE && |regs| == REGISTER_COUNT && |other| == REGISTER_COUNT
    requires base < MEMORY_SIZE && x < REGISTER_COUNT
    ensures forall i :: 0 <= i <= x ==> LoadRegisters(other, StoreRegisters(mem, regs, base, x), base, x)[i] == regs[i]
    ensures forall i :: x < i < REGISTER_COUNT ==> LoadRegisters(other, StoreRegisters(mem, regs, base, x), base, x)[i] == other[i]
  {
    forall i | 0 <= i <= x
      ensures LoadRegisters(other, StoreRegisters(mem, regs, base, x), base, x)[i] == regs[i]
    {
      StoreRegistersCells(mem, regs, base, x, i, 0);
    }
  }

  /** The outcome of one cycle: the handler ran, or a call found the stack
      full or a return found it empty and the handler was not run. */
  datatype Status = Ran | StackOverflow | StackUnderflow

  // ---- The state as a value

  /** The machine state a handler reads and writes; the keypad, which only
      the host writes, is passed beside it. */
  datatype Snapshot = Snapshot(
    registers: seq<Byte>, memory: seq<Byte>, index: Word, pc: Word,
    stack: seq<Word>, sp: nat, delayTimer: Byte, soundTimer: Byte,
    video: seq<bool>, opcode: Word)

  /** The fixed sizes of the state and the bound on the stack pointer. */
  predicate WellFormed(s: Snapshot)
  {
    && |s.registers| == REGISTER_COUNT && |s.memory| == MEMORY_SIZE
    && |s.stack| == STACK_LEVELS && |s.video| == PIXELS && s.sp <= STACK_LEVELS
  }

  /** The cleared framebuffer. */
  function Blank(): (v: seq<bool>)
    ensures |v| == PIXELS && forall p :: 0 <= p < |v| ==> !v[p]
  {
    seq(PIXELS, p => false)
  }

  /** The lowest-numbered key that is down, or |keys| when none is. */
  function FirstKeyDown(keys: seq<Byte>): (k: nat)
    ensures k <= |keys|
    ensures forall j :: 0 <= j < k ==> keys[j] == 0
    ensures k < |keys| ==> keys[k] != 0
  {
    if |keys| == 0 || keys[0] != 0 then 0 else 1 + FirstKeyDown(keys[1..])
  }

  /** Whether the skip instruction in s.opcode has its condition met. */
  predicate SkipTaken(s: Snapshot, keys: seq<Byte>)
    requires WellFormed(s) && |keys| == KEY_COUNT
  {
    var op := s.opcode;
    var vx, vy := s.registers[X(op)], s.registers[Y(op)];
    match Decode(op)
    case SeByte => vx == KK(op)
    case SneByte => vx != KK(op)
    case SeReg => vx == vy
    case SneReg => vx != vy
    case Skp => keys[vx % KEY_COUNT] != 0
    case Sknp => keys[vx % KEY_COUNT] == 0
    case _ => false
  }

  /** pc after a conditional skip. */
  function SkipPc(pc: Word, taken: bool): Word
  {
    if taken then Trunc16(pc + 2) else pc
  }

  /** The state after the handler that s.opcode decodes to. A call with the
      stack full and a return with it empty change nothing (the cycle
      reports them, see Outcome); random is the byte `Cxkk` masks. */
  function Effect(s: Snapshot, keys: seq<Byte>, random: Byte): (t: Snapshot)
    requires WellFormed(s) && |keys| == KEY_COUNT
    ensures WellFormed(t) && t.opcode == s.opcode
  {
    var op := s.opcode;
    var x, y, kk, nnn := X(op), Y(op), KK(op), NNN(op);
    var vx, vy := s.registers[x], s.registers[y];
    match Decode(op)
    case Cls => s.(video := Blank())
    case Ret => if s.sp == 0 then s else s.(sp := s.sp - 1, pc := s.stack[s.sp - 1])
    case Jp => s.(pc := nnn)
    case Call =>
      if s.sp == STACK_LEVELS then s
      else s.(stack := s.stack[s.sp := s.pc], sp := s.sp + 1, pc := nnn)
    case SeByte => s.(pc := SkipPc(s.pc, vx == kk))
    case SneByte => s.(pc := SkipPc(s.pc, vx != kk))
    case SeReg => s.(pc := SkipPc(s.pc, vx == vy))
    case LdByte => s.(registers := s.registers[x := kk])
    case AddByte => s.(registers := s.registers[x := Trunc8(vx as int + kk)])
    case LdReg => s.(registers := s.registers[x := vy])
    case Or => s.(registers := s.registers[x := BitOr(vx, vy)])
    case And => s.(registers := s.registers[x := BitAnd(vx, vy)])
    case Xor => s.(registers := s.registers[x := BitXor(vx, vy)])
    case AddReg =>
      s.(registers := s.registers[x := Trunc8(vx as int + vy)][VF := if vx as int + vy > 0xFF then 1 else 0])
    case Sub =>
      s.(registers := s.registers[x := Trunc8(vx as int - vy)][VF := if vx >= vy then 1 else 0])
    case Shr => s.(registers := s.registers[x := vx / 2][VF := vx % 2])
    case Subn =>
      s.(registers := s.registers[x := Trunc8(vy as int - vx)][VF := if vy >= vx then 1 else 0])
    case Shl => s.(registers := s.registers[x := Trunc8(2 * vx as int)][VF := vx / 0x80])
    case SneReg => s.(pc := SkipPc(s.pc, vx != vy))
    case LdI => s.(index := nnn)
    case JpV0 => s.(pc := nnn + s.registers[0])
    case Rnd => s.(registers := s.registers[x := BitAnd(random, kk)])
    case Drw =>
      var x0, y0 := vx % VIDEO_WIDTH, vy % VIDEO_HEIGHT;
      var rows := SpriteRows(s.memory, s.index, N(op));
      s.(video := Draw(s.video, x0, y0, rows),
         registers := s.registers[VF := if Collides(s.video, x0, y0, rows) then 1 else 0])
    case Skp => s.(pc := SkipPc(s.pc, keys[vx % KEY_COUNT] != 0))
    case Sknp => s.(pc := SkipPc(s.pc, keys[vx % KEY_COUNT] == 0))
    case LdVxDt => s.(registers := s.registers[x := s.delayTimer])
    case LdVxK =>
      var k := FirstKeyDown(keys);
      if k < KEY_COUNT then s.(registers := s.registers[x := k]) else s.(pc := Trunc16(s.pc - 2))
    case LdDtVx => s.(delayTimer := vx)
    case LdStVx => s.(soundTimer := vx)
    case AddIVx => s.(index := Trunc16(s.index + vx))
    case LdFVx => s.(index := FONTSET_START_ADDRESS + FONT_GLYPH_BYTES * vx)
    case LdBVx =>
      var d := Bcd(vx);
      s.(memory := s.memory[Addr(s.index + 2) := d[2]][Addr(s.index + 1) := d[1]][Addr(s.index) := d[0]])
    case LdIVx => s.(memory := StoreRegisters(s.memory, s.registers, Addr(s.index), x))
    case LdVxI => s.(registers := LoadRegisters(s.registers, s.memory, Addr(s.index), x))
    case Null => s
  }

  /** Cxkk: Vx becomes the supplied random byte masked with kk. */
  lemma EffectRandom(s: Snapshot, keys: seq<Byte>, random: Byte)
    requires WellFormed(s) && |keys| == KEY_COUNT && Decode(s.opcode) == Rnd
    ensures Effect(s, keys, random) == s.(registers := s.registers[X(s.opcode) := BitAnd(random, KK(s.opcode))])
  {
  }

  /** What a cycle reports for the instruction in s.opcode. */
  function Outcome(s: Snapshot): (r: Status)
    ensures r == StackOverflow <==> Decode(s.opcode) == Call && s.sp == STACK_LEVELS
    ensures r == StackUnderflow <==> Decode(s.opcode) == Ret && s.sp == 0
  {
    var h := Decode(s.opcode);
    if h == Call && s.sp == STACK_LEVELS then StackOverflow
    else if h == Ret && s.sp == 0 then StackUnderflow
    else Ran
  }

  /** The fetch: the big-endian word at pc becomes the opcode and pc moves
      past it. */
  function Fetched(s: Snapshot): (t: Snapshot)
    requires WellFormed(s)
    ensures WellFormed(t)
    ensures t.opcode / 0x100 == s.memory[Addr(s.pc)] && t.opcode % 0x100 == s.memory[Addr(s.pc + 1)]
    ensures t == s.(opcode := t.opcode, pc := Trunc16(s.pc + 2))
  {
    s.(opcode := Fetch(s.memory[Addr(s.pc)], s.memory[Addr(s.pc + 1)]), pc := Trunc16(s.pc + 2))
  }

  /** One cycle: fetch, then execute what was fetched. */
  function Step(s: Snapshot, keys: seq<Byte>, random: Byte): (t: Snapshot)
    requires WellFormed(s) && |keys| == KEY_COUNT
    ensures WellFormed(t)
  {
    Effect(Fetched(s), keys, random)
  }

  // ---- What a cycle promises

  /** A skip leaves everything but pc as the fetch left it, and pc ends 4
      past the instruction when the condition holds and 2 past it when not. */
  lemma StepSkips(s: Snapshot, keys: seq<Byte>, random: Byte)
    requires WellFormed(s) && |keys| == KEY_COUNT && IsSkip(Decode(Fetched(s).opcode))
    ensures Step(s, keys, random) ==
      Fetched(s).(pc := Trunc16(s.pc + if SkipTaken(Fetched(s), keys) then 4 else 2))
  {
    Trunc16Twice(s.pc, 2, 2);
  }

  /** Every handler that neither skips, jumps, calls, returns nor waits
      leaves pc 2 past the instruction. */
  lemma StepFallsThrough(s: Snapshot, keys: seq<Byte>, random: Byte)
    requires WellFormed(s) && |keys| == KEY_COUNT && FallsThrough(Decode(Fetched(s).opcode))
    ensures Step(s, keys, random).pc == Trunc16(s.pc + 2)
  {
  }

  /** An unused opcode, a call with the stack full and a return with it
      empty do nothing beyond the fetch. */
  lemma StepIdles(s: Snapshot, keys: seq<Byte>, random: Byte)
    requires WellFormed(s) && |keys| == KEY_COUNT
    requires Decode(Fetched(s).opcode) == Null || Outcome(Fetched(s)) != Ran
    ensures Step(s, keys, random) == Fetched(s)
  {
  }

  /** `Fx0A` with no key down puts pc back on itself, so the next cycle
      fetches it again; nothing else changes but the opcode. */
  lemma StepWaitsForKey(s: Snapshot, keys: seq<Byte>, random: Byte)
    requires WellFormed(s) && |keys| == KEY_COUNT && Decode(Fetched(s).opcode) == LdVxK
    requires forall k :: 0 <= k < KEY_COUNT ==> keys[k] == 0
    ensures Step(s, keys, random) == s.(opcode := Fetched(s).opcode)
  {
    Trunc16Twice(s.pc, 2, -2);
  }

  /** `Fx0A` with a key down stores the lowest such key in Vx and moves on. */
  lemma StepTakesKey(s: Snapshot, keys: seq<Byte>, random: Byte, k: nat)
    requires WellFormed(s) && |keys| == KEY_COUNT && Decode(Fetched(s).opcode) == LdVxK
    requires k < KEY_COUNT && keys[k] != 0
    ensures var t := Step(s, keys, random);
      && t.registers[X(t.opcode)] < KEY_COUNT && keys[t.registers[X(t.opcode)]] != 0
      && (forall j :: 0 <= j < t.registers[X(t.opcode)] ==> keys[j] == 0)
      && t.pc == Trunc16(s.pc + 2)
  {
  }

  /** What `2nnn` does when the stack has room. */
  lemma EffectCall(s: Snapshot, keys: seq<Byte>, random: Byte)
    requires WellFormed(s) && |keys| == KEY_COUNT && Decode(s.opcode) == Call && s.sp < STACK_LEVELS
    ensures Effect(s, keys, random) ==
      s.(stack := s.stack[s.sp := s.pc], sp := s.sp + 1, pc := NNN(s.opcode))
  {
  }

  /** What `00EE` does when the stack is not empty. */
  lemma EffectRet(s: Snapshot, keys: seq<Byte>, random: Byte)
    requires WellFormed(s) && |keys| == KEY_COUNT && Decode(s.opcode) == Ret && s.sp > 0
    ensures Effect(s, keys, random) == s.(sp := s.sp - 1, pc := s.stack[s.sp - 1])
  {
  }

  /** A call to a subroutine that starts with `00EE`: two cycles later pc
      is just past the call, sp is back where it was, the return address
      is left in the stack slot, and nothing else has changed. */
  lemma CallThenReturn(s: Snapshot, keys: seq<Byte>, r1: Byte, r2: Byte)
    requires WellFormed(s) && |keys| == KEY_COUNT
    requires Decode(Fetched(s).opcode) == Call && s.sp < STACK_LEVELS
    requires var target := NNN(Fetched(s).opcode);
      s.memory[target] == 0x00 && s.memory[Addr(target + 1)] == 0xEE
    ensures Outcome(Fetched(s)) == Ran && Outcome(Fetched(Step(s, keys, r1))) == Ran
    ensures var t := Step(Step(s, keys, r1), keys, r2);
      && t.pc == Trunc16(s.pc + 2) && t.sp == s.sp
      && t.stack == s.stack[s.sp := Trunc16(s.pc + 2)]
      && t.registers == s.registers && t.memory == s.memory && t.index == s.index
      && t.video == s.video && t.delayTimer == s.delayTimer && t.soundTimer == s.soundTimer
  {
    var f1 := Fetched(s);
    EffectCall(f1, keys, r1);
    var t1 := Step(s, keys, r1);
    assert t1 == f1.(stack := f1.stack[f1.sp := f1.pc], sp := f1.sp + 1, pc := NNN(f1.opcode));
    var f2 := Fetched(t1);
    assert f2.opcode == Fetch(0x00, 0xEE) == 0x00EE;
    DecodeAgreesWithReference(0x00EE);
    EffectRet(f2, keys, r2);
  }

  /** `Fx55` stores V0..Vx at I. */
  lemma EffectStore(s: Snapshot, keys: seq<Byte>, random: Byte, x: nat)
    requires WellFormed(s) && |keys| == KEY_COUNT && x < REGISTER_COUNT && s.opcode == 0xF055 + 0x100 * x
    ensures Effect(s, keys, random) ==
      s.(memory := StoreRegisters(s.memory, s.registers, Addr(s.index), x))
  {
    assert Top(s.opcode) == 0xF && KK(s.opcode) == 0x55 && X(s.opcode) == x;
    DecodeAgreesWithReference(s.opcode);
  }

  /** `Fx65` loads V0..Vx from I. */
  lemma EffectLoad(s: Snapshot, keys: seq<Byte>, random: Byte, x: nat)
    requires WellFormed(s) && |keys| == KEY_COUNT && x < REGISTER_COUNT && s.opcode == 0xF065 + 0x100 * x
    ensures Effect(s, keys, random) ==
      s.(registers := LoadRegisters(s.registers, s.memory, Addr(s.index), x))
  {
    assert Top(s.opcode) == 0xF && KK(s.opcode) == 0x65 && X(s.opcode) == x;
    DecodeAgreesWithReference(s.opcode);
  }

  /** `Fx65` after `Fx55` with the same x and I gives every register back,
      and leaves the memory as the store wrote it. */
  lemma StoreThenLoad(s: Snapshot, keys: seq<Byte>, random: Byte, x: nat)
    requires WellFormed(s) && |keys| == KEY_COUNT && x < REGISTER_COUNT
    ensures var s1 := Effect(s.(opcode := 0xF055 + 0x100 * x), keys, random);
      var s2 := Effect(s1.(opcode := 0xF065 + 0x100 * x), keys, random);
      s2.registers == s.registers && s2.memory == s1.memory && s2.index == s.index
  {
    EffectStore(s.(opcode := 0xF055 + 0x100 * x), keys, random, x);
    var s1 := Effect(s.(opcode := 0xF055 + 0x100 * x), keys, random);
    EffectLoad(s1.(opcode := 0xF065 + 0x100 * x), keys, random, x);
    LoadAfterStore(s.memory, s.registers, s.registers, Addr(s.index), x);
  }

  /** Drawing the same sprite twice restores the framebuffer, as long as
      neither coordinate register is VF, which the first draw overwrites. */
  lemma DrawTwiceRestores(s: Snapshot, keys: seq<Byte>, random: Byte)
    requires WellFormed(s) && |keys| == KEY_COUNT && Decode(s.opcode) == Drw
    requires X(s.opcode) != VF && Y(s.opcode) != VF
    ensures Effect(Effect(s, keys, random), keys, random).video == s.video
  {
    var x0, y0 := s.registers[X(s.opcode)] % VIDEO_WIDTH, s.registers[Y(s.opcode)] % VIDEO_HEIGHT;
    DrawTwice(s.video, x0, y0, SpriteRows(s.memory, s.index, N(s.opcode)));
  }

  /** Running the same `Dxyn` a second time sets VF to 1 exactly when the
      first run lit some pixel, and to 0 otherwise, as long as neither
      coordinate register is VF. */
  lemma RedrawSetsFlag(s: Snapshot, keys: seq<Byte>, random: Byte)
    requires WellFormed(s) && |keys| == KEY_COUNT && Decode(s.opcode) == Drw
    requires X(s.opcode) != VF && Y(s.opcode) != VF
    ensures var t := Effect(s, keys, random);
      var u := Effect(t, keys, random);
      && (u.registers[VF] == 1 <==> exists p :: 0 <= p < PIXELS && !s.video[p] && t.video[p])
      && (u.registers[VF] == 0 || u.registers[VF] == 1)
  {
    var x0, y0 := s.registers[X(s.opcode)] % VIDEO_WIDTH, s.registers[Y(s.opcode)] % VIDEO_HEIGHT;
    RedrawCollidesIffLit(s.video, x0, y0, SpriteRows(s.memory, s.index, N(s.opcode)));
  }

  /** Memory and the framebuffer are written only by the handlers that
      name them. */
  lemma EffectWritesMemoryAndScreen(s: Snapshot, keys: seq<Byte>, random: Byte)
    requires WellFormed(s) && |keys| == KEY_COUNT
    ensures var h, t := Decode(s.opcode), Effect(s, keys, random);
      && (t.memory != s.memory ==> h in {LdBVx, LdIVx})
      && (t.video != s.video ==> h in {Cls, Drw})
  {
  }

  /** The stack, sp and pc are written only by the control-flow handlers. */
  lemma EffectWritesControl(s: Snapshot, keys: seq<Byte>, random: Byte)
    requires WellFormed(s) && |keys| == KEY_COUNT
    ensures var h, t := Decode(s.opcode), Effect(s, keys, random);
      && (t.stack != s.stack ==> h == Call)
      && (t.sp != s.sp ==> h in {Call, Ret})
      && (t.pc != s.pc ==> h in {Ret, Jp, Call, SeByte, SneByte, SeReg, SneReg, JpV0, Skp, Sknp, LdVxK})
  {
  }

  /** V0..VF are written only by the handlers that name a register as
      destination, and by `Dxyn` through VF. */
  lemma EffectWritesRegisters(s: Snapshot, keys: seq<Byte>, random: Byte)
    requires WellFormed(s) && |keys| == KEY_COUNT
    ensures var h, t := Decode(s.opcode), Effect(s, keys, random);
      t.registers != s.registers ==>
        h in {LdByte, AddByte, LdReg, Or, And, Xor, AddReg, Sub, Shr, Subn, Shl, Rnd, Drw, LdVxDt, LdVxK, LdVxI}
  {
  }

  /** I is written only by the handlers that name it as destination. */
  lemma EffectWritesIndex(s: Snapshot, keys: seq<Byte>, random: Byte)
    requires WellFormed(s) && |keys| == KEY_COUNT
    ensures Effect(s, keys, random).index != s.index ==> Decode(s.opcode) in {LdI, AddIVx, LdFVx}
  {
  }

  /** The timers are written only by `Fx15` and `Fx18`. */
  lemma EffectWritesTimers(s: Snapshot, keys: seq<Byte>, random: Byte)
    requires WellFormed(s) && |keys| == KEY_COUNT
    ensures var h, t := Decode(s.opcode), Effect(s, keys, random);
      && (t.delayTimer != s.delayTimer ==> h == LdDtVx)
      && (t.soundTimer != s.soundTimer ==> h == LdStVx)
  {
  }
}
