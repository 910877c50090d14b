/** The CHIP-8 virtual machine: its state as fields updated in place, one
    method per instruction handler, and the fetch-decode-execute cycle. */
module Machine {
  import opened Bytes
  import opened Dispatch
  import opened Framebuffer
  import opened Semantics

  class Chip8 {
    const registers: array<Byte>
    const memory: array<Byte>
    var index: Word
    var pc: Word
    const stack: array<Word>
    var sp: Byte
    var delayTimer: Byte
    var soundTimer: Byte
    const keypad: array<Byte>
    const video: array<bool>
    var opcode: Word

    /** The fixed sizes of the state and the bound on the stack pointer. */
    ghost predicate Valid()
      reads this
    {
      && registers.Length == REGISTER_COUNT
      && memory.Length == MEMORY_SIZE
      && stack.Length == STACK_LEVELS
      && keypad.Length == KEY_COUNT
      && video.Length == PIXELS
      && registers != memory && registers != keypad && memory != keypad
      && sp <= STACK_LEVELS
    }

    /** The state as a value, every array read out as a sequence. */
    ghost function Snap(): (s: Snapshot)
      requires Valid()
      reads this, registers, memory, stack, video
      ensures WellFormed(s)
    {
      Snapshot(registers[..], memory[..], index, pc, stack[..], sp, delayTimer, soundTimer, video[..], opcode)
    }

    /** A fresh machine: all state zero, the font in low memory, pc at the
        start address. */
    constructor ()
      ensures Valid()
      ensures fresh(registers) && fresh(memory) && fresh(stack) && fresh(keypad) && fresh(video)
      ensures pc == START_ADDRESS && index == 0 && sp == 0 && opcode == 0
      ensures delayTimer == 0 && soundTimer == 0
      ensures forall i :: 0 <= i < REGISTER_COUNT ==> registers[i] == 0
      ensures forall i :: 0 <= i < STACK_LEVELS ==> stack[i] == 0
      ensures forall k :: 0 <= k < KEY_COUNT ==> keypad[k] == 0
      ensures forall p :: 0 <= p < PIXELS ==> !video[p]
      ensures forall a :: 0 <= a < MEMORY_SIZE ==>
        memory[a] == if FONTSET_START_ADDRESS <= a < FONTSET_START_ADDRESS + |FONTSET|
                     then FONTSET[a - FONTSET_START_ADDRESS] else 0
    {
      registers := new Byte[REGISTER_COUNT](_ => 0);
      memory := new Byte[MEMORY_SIZE](_ => 0);
      stack := new Word[STACK_LEVELS](_ => 0);
      keypad := new Byte[KEY_COUNT](_ => 0);
      video := new bool[PIXELS](_ => false);
      index, pc, sp, opcode := 0, START_ADDRESS, 0, 0;
      delayTimer, soundTimer := 0, 0;
      new;
      LoadFont();
    }

    /** Copy the font glyphs into zeroed memory at the font base. */
    method LoadFont()
      requires Valid()
      requires forall a :: 0 <= a < MEMORY_SIZE ==> memory[a] == 0
      modifies memory
      ensures forall a :: 0 <= a < MEMORY_SIZE ==>
        memory[a] == if FONTSET_START_ADDRESS <= a < FONTSET_START_ADDRESS + |FONTSET|
                     then FONTSET[a - FONTSET_START_ADDRESS] else 0
    {
      var font := FONTSET;
      var i := 0;
      while i < |font|
        invariant 0 <= i <= |font|
        invariant forall a :: 0 <= a < MEMORY_SIZE ==>
          memory[a] == if FONTSET_START_ADDRESS <= a < FONTSET_START_ADDRESS + i
                       then font[a - FONTSET_START_ADDRESS] else 0
      {
        memory[FONTSET_START_ADDRESS + i] := font[i];
        i := i + 1;
      }
    }

    /** The program image copied into memory from the start address; an
        image larger than the space above it is refused and memory is left
        as it was. */
    method LoadImage(image: seq<Byte>) returns (ok: bool)
      requires Valid()
      modifies memory
      ensures ok <==> |image| <= MEMORY_SIZE - START_ADDRESS
      ensures ok ==> memory[..] == old(memory[..START_ADDRESS]) + image + old(memory[START_ADDRESS + |image|..])
      ensures !ok ==> unchanged(memory)
    {
      if |image| > MEMORY_SIZE - START_ADDRESS {
        return false;
      }
      var i := 0;
      while i < |image|
        invariant 0 <= i <= |image|
        invariant forall a :: 0 <= a < MEMORY_SIZE ==>
          memory[a] == if START_ADDRESS <= a < START_ADDRESS + i then image[a - START_ADDRESS] else old(memory[a])
      {
        memory[START_ADDRESS + i] := image[i];
        i := i + 1;
      }
      ok := true;
      assert memory[..] == old(memory[..START_ADDRESS]) + image + old(memory[START_ADDRESS + |image|..]);
    }

    // ---- 00E0 to 2nnn: screen and control flow

    /** CLS: every pixel dark. */
    method Op00E0()
      requires Valid()
      modifies video
      ensures Snap() == old(Snap()).(video := Blank())
    {
      var p := 0;
      while p < PIXELS
        invariant 0 <= p <= PIXELS
        invariant forall q :: 0 <= q < p ==> !video[q]
      {
        video[p] := false;
        p := p + 1;
      }
      assert video[..] == Blank();
    }

    /** RET: pop the return address into pc. */
    method Op00EE()
      requires Valid() && sp > 0
      modifies this`sp, this`pc
      ensures Valid()
      ensures var s := old(Snap()); Snap() == s.(sp := s.sp - 1, pc := s.stack[s.sp - 1])
    {
      sp := sp - 1;
      pc := stack[sp];
    }

    /** JP addr. */
    method Op1nnn()
      requires Valid()
      modifies this`pc
      ensures Valid()
      ensures var s := old(Snap()); Snap() == s.(pc := NNN(s.opcode))
    {
      pc := NNN(opcode);
    }

    /** CALL addr: push pc, then jump. */
    method Op2nnn()
      requires Valid() && sp < STACK_LEVELS
      modifies stack, this`sp, this`pc
      ensures Valid()
      ensures var s := old(Snap()); Snap() == s.(stack := s.stack[s.sp := s.pc], sp := s.sp + 1, pc := NNN(s.opcode))
    {
      stack[sp] := pc;
      sp := sp + 1;
      pc := NNN(opcode);
    }

    // ---- 3xkk to 7xkk: immediate operands

    /** SE Vx, byte. */
    method Op3xkk()
      requires Valid()
      modifies this`pc
      ensures Valid()
      ensures var s := old(Snap()); Snap() == s.(pc := SkipPc(s.pc, s.registers[X(s.opcode)] == KK(s.opcode)))
    {
      if registers[X(opcode)] == KK(opcode) {
        pc := Trunc16(pc + 2);
      }
    }

    /** SNE Vx, byte. */
    method Op4xkk()
      requires Valid()
      modifies this`pc
      ensures Valid()
      ensures var s := old(Snap()); Snap() == s.(pc := SkipPc(s.pc, s.registers[X(s.opcode)] != KK(s.opcode)))
    {
      if registers[X(opcode)] != KK(opcode) {
        pc := Trunc16(pc + 2);
      }
    }

    /** SE Vx, Vy. */
    method Op5xy0()
      requires Valid()
      modifies this`pc
      ensures Valid()
      ensures var s := old(Snap()); Snap() == s.(pc := SkipPc(s.pc, s.registers[X(s.opcode)] == s.registers[Y(s.opcode)]))
    {
      if registers[X(opcode)] == registers[Y(opcode)] {
        pc := Trunc16(pc + 2);
      }
    }

    /** LD Vx, byte. */
    method Op6xkk()
      requires Valid()
      modifies registers
      ensures var s := old(Snap()); Snap() == s.(registers := s.registers[X(s.opcode) := KK(s.opcode)])
    {
      registers[X(opcode)] := KK(opcode);
    }

    /** ADD Vx, byte: wraps at 8 bits, VF untouched. */
    method Op7xkk()
      requires Valid()
      modifies registers
      ensures var s := old(Snap()); Snap() == s.(registers := s.registers[X(s.opcode) := Trunc8(s.registers[X(s.opcode)] as int + KK(s.opcode))])
    {
      registers[X(opcode)] := Trunc8(registers[X(opcode)] + KK(opcode));
    }

    // ---- 8xyN: register to register

    /** LD Vx, Vy. */
    method Op8xy0()
      requires Valid()
      modifies registers
      ensures var s := old(Snap()); Snap() == s.(registers := s.registers[X(s.opcode) := s.registers[Y(s.opcode)]])
    {
      registers[X(opcode)] := registers[Y(opcode)];
    }

    /** OR Vx, Vy. */
    method Op8xy1()
      requires Valid()
      modifies registers
      ensures var s := old(Snap()); Snap() == s.(registers := s.registers[X(s.opcode) := BitOr(s.registers[X(s.opcode)], s.registers[Y(s.opcode)])])
    {
      registers[X(opcode)] := BitOr(registers[X(opcode)], registers[Y(opcode)]);
    }

    /** AND Vx, Vy. */
    method Op8xy2()
      requires Valid()
      modifies registers
      ensures var s := old(Snap()); Snap() == s.(registers := s.registers[X(s.opcode) := BitAnd(s.registers[X(s.opcode)], s.registers[Y(s.opcode)])])
    {
      registers[X(opcode)] := BitAnd(registers[X(opcode)], registers[Y(opcode)]);
    }

    /** XOR Vx, Vy. */
    method Op8xy3()
      requires Valid()
      modifies registers
      ensures var s := old(Snap()); Snap() == s.(registers := s.registers[X(s.opcode) := BitXor(s.registers[X(s.opcode)], s.registers[Y(s.opcode)])])
    {
      registers[X(opcode)] := BitXor(registers[X(opcode)], registers[Y(opcode)]);
    }

    /** ADD Vx, Vy: the sum mod 256 in Vx, then VF = 1 iff it carried. */
    method Op8xy4()
      requires Valid()
      modifies registers
      ensures var s := old(Snap()); var a, b := s.registers[X(s.opcode)] as int, s.registers[Y(s.opcode)] as int;
        Snap() == s.(registers := s.registers[X(s.opcode) := Trunc8(a + b)][VF := if a + b > 0xFF then 1 else 0])
    {
      var x, y := X(opcode), Y(opcode);
      var sum := registers[x] as int + registers[y];
      registers[x] := Trunc8(sum);
      registers[VF] := if sum > 0xFF then 1 else 0;
    }

    /** SUB Vx, Vy: the difference mod 256 in Vx, then VF = NOT borrow. */
    method Op8xy5()
      requires Valid()
      modifies registers
      ensures var s := old(Snap()); var a, b := s.registers[X(s.opcode)] as int, s.registers[Y(s.opcode)] as int;
        Snap() == s.(registers := s.registers[X(s.opcode) := Trunc8(a - b)][VF := if a >= b then 1 else 0])
    {
      var x, y := X(opcode), Y(opcode);
      var a, b := registers[x] as int, registers[y] as int;
      registers[x] := Trunc8(a - b);
      registers[VF] := if a >= b then 1 else 0;
    }

    /** SHR Vx: Vx halved, then VF = the bit shifted out. */
    method Op8xy6()
      requires Valid()
      modifies registers
      ensures var s := old(Snap()); var a := s.registers[X(s.opcode)];
        Snap() == s.(registers := s.registers[X(s.opcode) := a / 2][VF := a % 2])
    {
      var x := X(opcode);
      var a := registers[x];
      registers[x] := a / 2;
      registers[VF] := a % 2;
    }

    /** SUBN Vx, Vy: Vy - Vx mod 256 in Vx, then VF = NOT borrow. */
    method Op8xy7()
      requires Valid()
      modifies registers
      ensures var s := old(Snap()); var a, b := s.registers[X(s.opcode)] as int, s.registers[Y(s.opcode)] as int;
        Snap() == s.(registers := s.registers[X(s.opcode) := Trunc8(b - a)][VF := if b >= a then 1 else 0])
    {
      var x, y := X(opcode), Y(opcode);
      var a, b := registers[x] as int, registers[y] as int;
      registers[x] := Trunc8(b - a);
      registers[VF] := if b >= a then 1 else 0;
    }

    /** SHL Vx: Vx doubled mod 256, then VF = the bit shifted out. */
    method Op8xyE()
      requires Valid()
      modifies registers
      ensures var s := old(Snap()); var a := s.registers[X(s.opcode)];
        Snap() == s.(registers := s.registers[X(s.opcode) := Trunc8(2 * a as int)][VF := a / 0x80])
    {
      var x := X(opcode);
      var a := registers[x] as int;
      registers[x] := Trunc8(2 * a);
      registers[VF] := a / 0x80;
    }

    // ---- 9xy0 to Dxyn

    /** SNE Vx, Vy. */
    method Op9xy0()
      requires Valid()
      modifies this`pc
      ensures Valid()
      ensures var s := old(Snap()); Snap() == s.(pc := SkipPc(s.pc, s.registers[X(s.opcode)] != s.registers[Y(s.opcode)]))
    {
      if registers[X(opcode)] != registers[Y(opcode)] {
        pc := Trunc16(pc + 2);
      }
    }

    /** LD I, addr. */
    method OpAnnn()
      requires Valid()
      modifies this`index
      ensures Valid()
      ensures var s := old(Snap()); Snap() == s.(index := NNN(s.opcode))
    {
      index := NNN(opcode);
    }

    /** JP V0, addr. */
    method OpBnnn()
      requires Valid()
      modifies this`pc
      ensures Valid()
      ensures var s := old(Snap()); Snap() == s.(pc := NNN(s.opcode) + s.registers[0])
    {
      pc := NNN(opcode) + registers[0];
    }

    /** RND Vx, byte: the random byte is supplied by the caller. */
    method OpCxkk(random: Byte)
      requires Valid()
      modifies registers
      ensures var s := old(Snap()); Snap() == s.(registers := s.registers[X(s.opcode) := BitAnd(random, KK(s.opcode))])
    {
      registers[X(opcode)] := BitAnd(random, KK(opcode));
    }

    /** DRW Vx, Vy, n: XOR the n-row sprite at I onto the framebuffer at
        (Vx mod 64, Vy mod 32); VF = 1 iff a lit pixel was hit. */
    method OpDxyn()
      requires Valid()
      modifies registers, video
      ensures var s := old(Snap()); var x0, y0 := s.registers[X(s.opcode)] % VIDEO_WIDTH, s.registers[Y(s.opcode)] % VIDEO_HEIGHT;
        var rows := SpriteRows(s.memory, s.index, N(s.opcode));
        Snap() == s.(video := Draw(s.video, x0, y0, rows),
                     registers := s.registers[VF := if Collides(s.video, x0, y0, rows) then 1 else 0])
    {
      var x0 := registers[X(opcode)] % VIDEO_WIDTH;
      var y0 := registers[Y(opcode)] % VIDEO_HEIGHT;
      var collided := DrawSprite(x0, y0, N(opcode));
      registers[VF] := if collided then 1 else 0;
    }

    /** The rows of `Dxyn`, top to bottom; reports whether any lit sprite
        pixel landed on a lit framebuffer pixel. */
    method DrawSprite(x0: nat, y0: nat, height: nat) returns (collided: bool)
      requires Valid() && x0 < VIDEO_WIDTH && y0 < VIDEO_HEIGHT && height < 0x10
      modifies video
      ensures var rows := SpriteRows(memory[..], index, height);
        && video[..] == Draw(old(video[..]), x0, y0, rows)
        && (collided <==> Collides(old(video[..]), x0, y0, rows))
    {
      ghost var v0 := video[..];
      ghost var rows := SpriteRows(memory[..], index, height);
      collided := false;
      var row := 0;
      while row < height
        invariant 0 <= row <= height
        invariant forall p :: 0 <= p < PIXELS ==> video[p] == (v0[p] != HitBefore(x0, y0, rows, p, row, 0))
        invariant collided <==> exists p :: 0 <= p < PIXELS && v0[p] && HitBefore(x0, y0, rows, p, row, 0)
      {
        collided := DrawSpriteRow(x0, y0, v0, rows, row, memory[Addr(index + row)], collided);
        row := row + 1;
      }
      assert video[..] == Draw(v0, x0, y0, rows);
    }

    /** One row of `Dxyn`: the eight sprite pixels of the row, left to
        right, each lit one toggling the pixel it lands on. */
    method DrawSpriteRow(x0: nat, y0: nat, ghost v0: seq<bool>, ghost rows: seq<Byte>, row: nat,
                         spriteByte: Byte, collided: bool) returns (collidedAfter: bool)
      requires Valid() && x0 < VIDEO_WIDTH && y0 < VIDEO_HEIGHT && |v0| == PIXELS
      requires row < |rows| < VIDEO_HEIGHT && spriteByte == rows[row]
      requires forall p :: 0 <= p < PIXELS ==> video[p] == (v0[p] != HitBefore(x0, y0, rows, p, row, 0))
      requires collided <==> exists p :: 0 <= p < PIXELS && v0[p] && HitBefore(x0, y0, rows, p, row, 0)
      modifies video
      ensures forall p :: 0 <= p < PIXELS ==> video[p] == (v0[p] != HitBefore(x0, y0, rows, p, row + 1, 0))
      ensures collidedAfter <==> exists p :: 0 <= p < PIXELS && v0[p] && HitBefore(x0, y0, rows, p, row + 1, 0)
    {
      collidedAfter := collided;
      var col := 0;
      while col < SPRITE_WIDTH
        invariant 0 <= col <= SPRITE_WIDTH
        invariant forall p :: 0 <= p < PIXELS ==> video[p] == (v0[p] != HitBefore(x0, y0, rows, p, row, col))
        invariant collidedAfter <==> exists p :: 0 <= p < PIXELS && v0[p] && HitBefore(x0, y0, rows, p, row, col)
      {
        HitStep(x0, y0, rows, row, col);
        if SpriteBit(spriteByte, col) {
          var q := PixelAt(x0, y0, row, col);
          if video[q] {
            collidedAfter := true;
          }
          video[q] := !video[q];
        }
        col := col + 1;
      }
      RowDone(x0, y0, rows, row);
    }

    // ---- Ex9E, ExA1: keypad

    /** SKP Vx: skip if the key numbered by the low nibble of Vx is down. */
    method OpEx9E()
      requires Valid()
      modifies this`pc
      ensures Valid()
      ensures var s := old(Snap()); Snap() == s.(pc := SkipPc(s.pc, keypad[s.registers[X(s.opcode)] % KEY_COUNT] != 0))
    {
      if keypad[registers[X(opcode)] % KEY_COUNT] != 0 {
        pc := Trunc16(pc + 2);
      }
    }

    /** SKNP Vx: skip if that key is up. */
    method OpExA1()
      requires Valid()
      modifies this`pc
      ensures Valid()
      ensures var s := old(Snap()); Snap() == s.(pc := SkipPc(s.pc, keypad[s.registers[X(s.opcode)] % KEY_COUNT] == 0))
    {
      if keypad[registers[X(opcode)] % KEY_COUNT] == 0 {
        pc := Trunc16(pc + 2);
      }
    }

    // ---- FxNN: timers, keypad wait, index register, memory blocks

    /** LD Vx, DT. */
    method OpFx07()
      requires Valid()
      modifies registers
      ensures var s := old(Snap()); Snap() == s.(registers := s.registers[X(s.opcode) := s.delayTimer])
    {
      registers[X(opcode)] := delayTimer;
    }

    /** LD Vx, K: the lowest-numbered key that is down goes into Vx; with
        no key down, pc steps back so that this instruction runs again. */
    method OpFx0A()
      requires Valid()
      modifies registers, this`pc
      ensures Valid()
      ensures var s := old(Snap()); var k := FirstKeyDown(keypad[..]);
        Snap() == if k < KEY_COUNT then s.(registers := s.registers[X(s.opcode) := k])
                  else s.(pc := Trunc16(s.pc - 2))
    {
      var k := 0;
      while k < KEY_COUNT && keypad[k] == 0
        invariant 0 <= k <= KEY_COUNT
        invariant forall j :: 0 <= j < k ==> keypad[j] == 0
      {
        k := k + 1;
      }
      if k < KEY_COUNT {
        registers[X(opcode)] := k;
      } else {
        pc := Trunc16(pc - 2);
      }
    }

    /** LD DT, Vx. */
    method OpFx15()
      requires Valid()
      modifies this`delayTimer
      ensures Valid()
      ensures var s := old(Snap()); Snap() == s.(delayTimer := s.registers[X(s.opcode)])
    {
      delayTimer := registers[X(opcode)];
    }

    /** LD ST, Vx. */
    method OpFx18()
      requires Valid()
      modifies this`soundTimer
      ensures Valid()
      ensures var s := old(Snap()); Snap() == s.(soundTimer := s.registers[X(s.opcode)])
    {
      soundTimer := registers[X(opcode)];
    }

    /** ADD I, Vx: wraps at 16 bits. */
    method OpFx1E()
      requires Valid()
      modifies this`index
      ensures Valid()
      ensures var s := old(Snap()); Snap() == s.(index := Trunc16(s.index + s.registers[X(s.opcode)]))
    {
      index := Trunc16(index + registers[X(opcode)]);
    }

    /** LD F, Vx: I at the font glyph of digit Vx. */
    method OpFx29()
      requires Valid()
      modifies this`index
      ensures Valid()
      ensures var s := old(Snap()); Snap() == s.(index := FONTSET_START_ADDRESS + FONT_GLYPH_BYTES * s.registers[X(s.opcode)])
    {
      index := FONTSET_START_ADDRESS + FONT_GLYPH_BYTES * registers[X(opcode)];
    }

    /** LD B, Vx: the decimal digits of Vx at I, I + 1, I + 2, written
        ones digit first. */
    method OpFx33()
      requires Valid()
      modifies memory
      ensures var s := old(Snap()); var d := Bcd(s.registers[X(s.opcode)]);
        Snap() == s.(memory := s.memory[Addr(s.index + 2) := d[2]][Addr(s.index + 1) := d[1]][Addr(s.index) := d[0]])
    {
      var value := registers[X(opcode)];
      BcdBySteps(value);
      memory[Addr(index + 2)] := value % 10;
      value := value / 10;
      memory[Addr(index + 1)] := value % 10;
      value := value / 10;
      memory[Addr(index)] := value % 10;
    }

    /** LD [I], Vx: V0 to Vx stored from I on; I is not changed. */
    method OpFx55()
      requires Valid()
      modifies memory
      ensures var s := old(Snap()); Snap() == s.(memory := StoreRegisters(s.memory, s.registers, Addr(s.index), X(s.opcode)))
    {
      var x, base := X(opcode), Addr(index);
      var i := 0;
      while i <= x
        invariant 0 <= i <= x + 1
        invariant forall a :: 0 <= a < MEMORY_SIZE ==>
          memory[a] == if Offset(base, a) < i then registers[Offset(base, a)] else old(memory[a])
      {
        memory[Addr(base + i)] := registers[i];
        i := i + 1;
      }
      assert memory[..] == StoreRegisters(old(memory[..]), registers[..], base, x);
    }

    /** LD Vx, [I]: V0 to Vx loaded from I on; I is not changed. */
    method OpFx65()
      requires Valid()
      modifies registers
      ensures var s := old(Snap()); Snap() == s.(registers := LoadRegisters(s.registers, s.memory, Addr(s.index), X(s.opcode)))
    {
      var x, base := X(opcode), Addr(index);
      var i := 0;
      while i <= x
        invariant 0 <= i <= x + 1
        invariant forall j :: 0 <= j < REGISTER_COUNT ==>
          registers[j] == if j < i then memory[Addr(base + j)] else old(registers[j])
      {
        registers[i] := memory[Addr(base + i)];
        i := i + 1;
      }
      assert registers[..] == LoadRegisters(old(registers[..]), memory[..], base, x);
    }

    // ---- Secondary dispatch, one method per family as in the machine

    /** Family 0x0: CLS, RET; an empty stack is reported instead of popped. */
    method Table0() returns (status: Status)
      requires Valid() && Top(opcode) == 0x0
      modifies this`sp, this`pc, video
      ensures Valid()
      ensures status == Outcome(old(Snap()))
      ensures forall r: Byte :: Snap() == Effect(old(Snap()), keypad[..], r)
    {
      DecodeDirect(opcode);
      status := Ran;
      match Decode(opcode)
      case Cls => Op00E0();
      case Ret =>
        if sp == 0 {
          status := StackUnderflow;
        } else {
          Op00EE();
        }
      case _ =>
    }

    /** Family 0x8: the register-to-register ALU instructions. */
    method Table8()
      requires Valid() && Top(opcode) == 0x8
      modifies registers
      ensures forall r: Byte :: Snap() == Effect(old(Snap()), keypad[..], r)
    {
      DecodeDirect(opcode);
      match Decode(opcode)
      case LdReg => Op8xy0();
      case Or => Op8xy1();
      case And => Op8xy2();
      case Xor => Op8xy3();
      case AddReg => Op8xy4();
      case Sub => Op8xy5();
      case Shr => Op8xy6();
      case Subn => Op8xy7();
      case Shl => Op8xyE();
      case _ =>
    }

    /** Family 0xE: the key skips. */
    method TableE()
      requires Valid() && Top(opcode) == 0xE
      modifies this`pc
      ensures Valid()
      ensures forall r: Byte :: Snap() == Effect(old(Snap()), keypad[..], r)
    {
      DecodeDirect(opcode);
      match Decode(opcode)
      case Skp => OpEx9E();
      case Sknp => OpExA1();
      case _ =>
    }

    /** Family 0xF: timers, key wait, index register and memory blocks. */
    method TableF()
      requires Valid() && Top(opcode) == 0xF
      modifies this`pc, this`index, this`delayTimer, this`soundTimer, registers, memory
      ensures Valid()
      ensures forall r: Byte :: Snap() == Effect(old(Snap()), keypad[..], r)
    {
      DecodeDirect(opcode);
      match Decode(opcode)
      case LdVxDt => OpFx07();
      case LdVxK => OpFx0A();
      case LdDtVx => OpFx15();
      case LdStVx => OpFx18();
      case AddIVx => OpFx1E();
      case LdFVx => OpFx29();
      case LdBVx => OpFx33();
      case LdIVx => OpFx55();
      case LdVxI => OpFx65();
      case _ =>
    }

    // ---- FETCH, DECODE, EXECUTE

    /** The primary table's jump entries, 1nnn, 2nnn and Bnnn. A call with
        the stack full is reported and its handler is not run. */
    method ExecuteJump() returns (status: Status)
      requires Valid() && Top(opcode) in {0x1, 0x2, 0xB}
      modifies this`pc, this`sp, stack
      ensures Valid()
      ensures status == Outcome(old(Snap()))
      ensures forall r: Byte :: Snap() == Effect(old(Snap()), keypad[..], r)
    {
      status := Ran;
      DecodeDirect(opcode);
      match Top(opcode) {
      case 0x1 => assert Decode(opcode) == Jp; Op1nnn();
      case 0x2 =>
        assert Decode(opcode) == Call;
        if sp == STACK_LEVELS {
          status := StackOverflow;
        } else {
          Op2nnn();
        }
      case 0xB => assert Decode(opcode) == JpV0; OpBnnn();
      }
    }

    /** The primary table's conditional skips, 3xkk, 4xkk, 5xy0 and 9xy0. */
    method ExecuteSkip()
      requires Valid() && Top(opcode) in {0x3, 0x4, 0x5, 0x9}
      modifies this`pc
      ensures Valid()
      ensures forall r: Byte :: Snap() == Effect(old(Snap()), keypad[..], r)
    {
      DecodeDirect(opcode);
      match Top(opcode) {
      case 0x3 => assert Decode(opcode) == SeByte; Op3xkk();
      case 0x4 => assert Decode(opcode) == SneByte; Op4xkk();
      case 0x5 => assert Decode(opcode) == SeReg; Op5xy0();
      case 0x9 => assert Decode(opcode) == SneReg; Op9xy0();
      }
    }

    /** The primary table's register writers, 6xkk, 7xkk and Cxkk. */
    method ExecuteLoad(random: Byte)
      requires Valid() && Top(opcode) in {0x6, 0x7, 0xC}
      modifies registers
      ensures Valid()
      ensures Snap() == Effect(old(Snap()), keypad[..], random)
    {
      DecodeDirect(opcode);
      match Top(opcode) {
      case 0x6 => assert Decode(opcode) == LdByte; Op6xkk();
      case 0x7 => assert Decode(opcode) == AddByte; Op7xkk();
      case 0xC =>
        ghost var s0 := Snap();
        assert Decode(opcode) == Rnd;
        OpCxkk(random);
        EffectRandom(s0, keypad[..], random);
      }
    }

    /** The two direct instructions on I: set it, draw the sprite at it. */
    method ExecuteSprite()
      requires Valid() && Top(opcode) in {0xA, 0xD}
      modifies this`index, registers, video
      ensures Valid()
      ensures forall r: Byte :: Snap() == Effect(old(Snap()), keypad[..], r)
    {
      DecodeDirect(opcode);
      if Top(opcode) == 0xA {
        assert Decode(opcode) == LdI;
        OpAnnn();
      } else {
        assert Decode(opcode) == Drw;
        OpDxyn();
      }
    }

    /** Run the handler the top nibble of opcode selects, directly or
        through its family's table. A call with the stack full or a return
        with it empty is reported and its handler is not run. */
    method Execute(random: Byte) returns (status: Status)
      requires Valid()
      modifies this`pc, this`index, this`sp, this`delayTimer, this`soundTimer, registers, memory, stack, video
      ensures Valid()
      ensures status == Outcome(old(Snap()))
      ensures Snap() == Effect(old(Snap()), keypad[..], random)
    {
      FamilyKinds(opcode);
      match Top(opcode) {
      case 0x0 => status := Table0();
      case 0x8 => Table8(); status := Ran;
      case 0xE => TableE(); status := Ran;
      case 0xF => TableF(); status := Ran;
      case 0x1 | 0x2 | 0xB => status := ExecuteJump();
      case 0x3 | 0x4 | 0x5 | 0x9 => ExecuteSkip(); status := Ran;
      case 0x6 | 0x7 | 0xC => ExecuteLoad(random); status := Ran;
      case 0xA | 0xD => ExecuteSprite(); status := Ran;
      }
    }

    /** One instruction: fetch the big-endian word at pc, advance pc by 2,
        then decode and execute it. The random byte for `Cxkk` is supplied
        by the caller. */
    method Cycle(random: Byte) returns (status: Status)
      requires Valid()
      modifies this, registers, memory, stack, video
      ensures Valid()
      ensures status == Outcome(Fetched(old(Snap())))
      ensures Snap() == Step(old(Snap()), keypad[..], random)
      ensures Decode(opcode) == LdVxK && (forall k :: 0 <= k < KEY_COUNT ==> keypad[k] == 0) ==>
        pc == old(pc) && registers[..] == old(registers[..])
    {
      ghost var s0 := Snap();
      opcode := Fetch(memory[Addr(pc)], memory[Addr(pc + 1)]);
      pc := Trunc16(pc + 2);
      assert Snap() == Fetched(s0);
      status := Execute(random);
      if Decode(opcode) == LdVxK && (forall k :: 0 <= k < KEY_COUNT ==> keypad[k] == 0) {
        StepWaitsForKey(s0, keypad[..], random);
      }
    }
  }
}
