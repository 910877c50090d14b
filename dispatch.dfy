/** Decoding of a 16-bit CHIP-8 instruction word into the handler that
    executes it: the two-level dispatch of the machine's function tables,
    and the instruction set of Cowgod's Chip-8 Technical Reference,
    section 3.1, as an independent reference. */
module Dispatch {
  import opened Bytes
  import opened Wrappers

  /** One entry per instruction handler of the machine, plus the no-op. */
  datatype Handler =
    | Cls        // 00E0
    | Ret        // 00EE
    | Jp         // 1nnn
    | Call       // 2nnn
    | SeByte     // 3xkk
    | SneByte    // 4xkk
    | SeReg      // 5xy0
    | LdByte     // 6xkk
    | AddByte    // 7xkk
    | LdReg      // 8xy0
    | Or         // 8xy1
    | And        // 8xy2
    | Xor        // 8xy3
    | AddReg     // 8xy4
    | Sub        // 8xy5
    | Shr        // 8xy6
    | Subn       // 8xy7
    | Shl        // 8xyE
    | SneReg     // 9xy0
    | LdI        // Annn
    | JpV0       // Bnnn
    | Rnd        // Cxkk
    | Drw        // Dxyn
    | Skp        // Ex9E
    | Sknp       // ExA1
    | LdVxDt     // Fx07
    | LdVxK      // Fx0A
    | LdDtVx     // Fx15
    | LdStVx     // Fx18
    | AddIVx     // Fx1E
    | LdFVx      // Fx29
    | LdBVx      // Fx33
    | LdIVx      // Fx55
    | LdVxI      // Fx65
    | Null       // OP_NULL, every unused slot

  // Fields of an instruction word, extracted by the masks and shifts of the handlers.

  /** (opcode & 0xF000) >> 12 */
  function Top(op: Word): (t: nat)
    ensures t < 0x10
  {
    op / 0x1000
  }

  /** (opcode & 0x0F00) >> 8 */
  function X(op: Word): (x: nat)
    ensures x < 0x10
  {
    (op / 0x100) % 0x10
  }

  /** (opcode & 0x00F0) >> 4 */
  function Y(op: Word): (y: nat)
    ensures y < 0x10
  {
    (op / 0x10) % 0x10
  }

  /** opcode & 0x000F */
  function N(op: Word): (n: nat)
    ensures n < 0x10
  {
    op % 0x10
  }

  /** opcode & 0x00FF */
  function KK(op: Word): (k: Byte)
    ensures k == Y(op) * 0x10 + N(op)
  {
    op % 0x100
  }

  /** opcode & 0x0FFF */
  function NNN(op: Word): (a: nat)
    ensures a < 0x1000
  {
    op % 0x1000
  }

  /** The fields tile the word: top nibble, x, y, n from high to low. */
  lemma FieldsCompose(op: Word)
    ensures op == Top(op) * 0x1000 + NNN(op)
    ensures NNN(op) == X(op) * 0x100 + KK(op)
  {
  }

  // The secondary tables as the machine declares them: table0, table8 and
  // tableE have 0xE + 1 slots, tableF has 0x65 + 1; the slots no
  // instruction fills hold OP_NULL.

  const NIBBLE_TABLE_SLOTS := 0xE + 1
  const TABLEF_SLOTS := 0x65 + 1

  function Table0Slot(i: nat): Handler
  {
    if i == 0x0 then Cls else if i == 0xE then Ret else Null
  }

  function Table8Slot(i: nat): Handler
  {
    match i
    case 0x0 => LdReg
    case 0x1 => Or
    case 0x2 => And
    case 0x3 => Xor
    case 0x4 => AddReg
    case 0x5 => Sub
    case 0x6 => Shr
    case 0x7 => Subn
    case 0xE => Shl
    case _ => Null
  }

  function TableESlot(i: nat): Handler
  {
    if i == 0x1 then Sknp else if i == 0xE then Skp else Null
  }

  function TableFSlot(i: nat): Handler
  {
    match i
    case 0x07 => LdVxDt
    case 0x0A => LdVxK
    case 0x15 => LdDtVx
    case 0x18 => LdStVx
    case 0x1E => AddIVx
    case 0x29 => LdFVx
    case 0x33 => LdBVx
    case 0x55 => LdIVx
    case 0x65 => LdVxI
    case _ => Null
  }

  /** The primary table, indexed by the top nibble; None at the four
      families that re-dispatch through a secondary table. */
  function Primary(t: nat): Option<Handler>
    requires t < 0x10
  {
    match t
    case 0x1 => Some(Jp)
    case 0x2 => Some(Call)
    case 0x3 => Some(SeByte)
    case 0x4 => Some(SneByte)
    case 0x5 => Some(SeReg)
    case 0x6 => Some(LdByte)
    case 0x7 => Some(AddByte)
    case 0x9 => Some(SneReg)
    case 0xA => Some(LdI)
    case 0xB => Some(JpV0)
    case 0xC => Some(Rnd)
    case 0xD => Some(Drw)
    case _ => None
  }

  /** The number of slots declared for a family's secondary table. */
  function SecondarySlots(t: nat): nat
  {
    if t == 0xF then TABLEF_SLOTS else NIBBLE_TABLE_SLOTS
  }

  /** Slot i of a family's secondary table. */
  function SecondarySlot(t: nat, i: nat): Handler
  {
    if t == 0x0 then Table0Slot(i)
    else if t == 0x8 then Table8Slot(i)
    else if t == 0xE then TableESlot(i)
    else TableFSlot(i)
  }

  /** The field that indexes a family's secondary table: the low nibble
      for 0x0, 0x8 and 0xE, the low byte for 0xF. */
  function SecondaryIndex(op: Word): nat
  {
    if Top(op) == 0xF then KK(op) else N(op)
  }

  /** The filled slots of each secondary table. */
  lemma SlotsFilled(i: nat)
    ensures Table0Slot(i) != Null <==> i == 0x0 || i == 0xE
    ensures Table8Slot(i) != Null <==> i <= 0x7 || i == 0xE
    ensures TableESlot(i) != Null <==> i == 0x1 || i == 0xE
    ensures TableFSlot(i) != Null <==> i in {0x07, 0x0A, 0x15, 0x18, 0x1E, 0x29, 0x33, 0x55, 0x65}
  {
  }

  /** Each secondary table is exactly long enough for its last filled slot. */
  lemma TableSizes(t: nat)
    requires t == 0x0 || t == 0x8 || t == 0xE || t == 0xF
    ensures SecondarySlots(t) > 0 && SecondarySlot(t, SecondarySlots(t) - 1) != Null
    ensures forall i: nat :: SecondarySlot(t, i) != Null ==> i < SecondarySlots(t)
  {
    forall i: nat | SecondarySlot(t, i) != Null
      ensures i < SecondarySlots(t)
    {
      SlotsFilled(i);
    }
  }

  /** The primary table sends four families to a secondary table and
      every other top nibble straight to a handler. */
  lemma PrimaryFamilies(t: nat)
    requires t < 0x10
    ensures Primary(t).None? <==> t == 0x0 || t == 0x8 || t == 0xE || t == 0xF
    ensures Primary(t).Some? ==> Primary(t).value != Null
  {
  }

  /** The dispatch as written: the field is used as an index without a
      bounds check, so None stands for a read past the end of the array. */
  function AsWrittenDecode(op: Word): Option<Handler>
  {
    match Primary(Top(op))
    case Some(direct) => Some(direct)
    case None =>
      var t, i := Top(op), SecondaryIndex(op);
      if i < SecondarySlots(t) then Some(SecondarySlot(t, i)) else None
  }

  /** The dispatch with the index checked: a field beyond the table is an
      unused slot and selects OP_NULL, like every other unused slot. */
  function Decode(op: Word): (h: Handler)
    ensures AsWrittenDecode(op).Some? ==> h == AsWrittenDecode(op).value
    ensures AsWrittenDecode(op).None? ==> h == Null
  {
    match Primary(Top(op))
    case Some(direct) => direct
    case None =>
      var t, i := Top(op), SecondaryIndex(op);
      if i < SecondarySlots(t) then SecondarySlot(t, i) else Null
  }

  /** The handler each top nibble selects, the families included. */
  lemma DecodeDirect(op: Word)
    ensures Primary(Top(op)).Some? ==> Decode(op) == Primary(Top(op)).value
    ensures Top(op) == 0x0 ==> Decode(op) in {Cls, Ret, Null}
    ensures Top(op) == 0x8 ==> Decode(op) in {LdReg, Or, And, Xor, AddReg, Sub, Shr, Subn, Shl, Null}
    ensures Top(op) == 0xE ==> Decode(op) in {Skp, Sknp, Null}
    ensures Top(op) == 0xF ==> Decode(op) in {LdVxDt, LdVxK, LdDtVx, LdStVx, AddIVx, LdFVx, LdBVx, LdIVx, LdVxI, Null}
  {
  }

  /** The handlers whose only effect on pc is a conditional skip. */
  predicate IsSkip(h: Handler)
  {
    h in {SeByte, SneByte, SeReg, SneReg, Skp, Sknp}
  }

  /** The handlers that leave pc where the fetch put it. */
  predicate FallsThrough(h: Handler)
  {
    !IsSkip(h) && h !in {Jp, Call, Ret, JpV0, LdVxK}
  }

  /** What the families hold, in the terms a cycle cares about: which of
      them can skip, jump, call or return. */
  lemma FamilyKinds(op: Word)
    ensures Top(op) in {0x0, 0x8, 0xF} ==> !IsSkip(Decode(op))
    ensures Top(op) == 0x8 ==> FallsThrough(Decode(op))
    ensures Top(op) == 0xE ==> Decode(op) == Null || IsSkip(Decode(op))
    ensures Top(op) == 0xF ==> (FallsThrough(Decode(op)) <==> Decode(op) != LdVxK)
    ensures Top(op) == 0x0 ==> (FallsThrough(Decode(op)) <==> Decode(op) != Ret)
    ensures Top(op) in {0x0, 0x8, 0xE, 0xF} ==> Decode(op) != Call
    ensures Top(op) in {0x8, 0xE, 0xF} ==> Decode(op) != Ret
  {
    DecodeDirect(op);
  }

  /** The instruction set of section 3.1 of Cowgod's Chip-8 Technical
      Reference, every bit of the word checked; Null for what it does not
      define (0nnn SYS is ignored by modern interpreters). */
  function Reference(op: Word): Handler
  {
    var t, n, kk := Top(op), N(op), KK(op);
    if op == 0x00E0 then Cls
    else if op == 0x00EE then Ret
    else if t == 0x1 then Jp
    else if t == 0x2 then Call
    else if t == 0x3 then SeByte
    else if t == 0x4 then SneByte
    else if t == 0x5 && n == 0x0 then SeReg
    else if t == 0x6 then LdByte
    else if t == 0x7 then AddByte
    else if t == 0x8 && n == 0x0 then LdReg
    else if t == 0x8 && n == 0x1 then Or
    else if t == 0x8 && n == 0x2 then And
    else if t == 0x8 && n == 0x3 then Xor
    else if t == 0x8 && n == 0x4 then AddReg
    else if t == 0x8 && n == 0x5 then Sub
    else if t == 0x8 && n == 0x6 then Shr
    else if t == 0x8 && n == 0x7 then Subn
    else if t == 0x8 && n == 0xE then Shl
    else if t == 0x9 && n == 0x0 then SneReg
    else if t == 0xA then LdI
    else if t == 0xB then JpV0
    else if t == 0xC then Rnd
    else if t == 0xD then Drw
    else if t == 0xE && kk == 0x9E then Skp
    else if t == 0xE && kk == 0xA1 then Sknp
    else if t == 0xF && kk == 0x07 then LdVxDt
    else if t == 0xF && kk == 0x0A then LdVxK
    else if t == 0xF && kk == 0x15 then LdDtVx
    else if t == 0xF && kk == 0x18 then LdStVx
    else if t == 0xF && kk == 0x1E then AddIVx
    else if t == 0xF && kk == 0x29 then LdFVx
    else if t == 0xF && kk == 0x33 then LdBVx
    else if t == 0xF && kk == 0x55 then LdIVx
    else if t == 0xF && kk == 0x65 then LdVxI
    else Null
  }

  /** Every instruction the reference defines is dispatched to its handler. */
  lemma DecodeAgreesWithReference(op: Word)
    requires Reference(op) != Null
    ensures Decode(op) == Reference(op)
  {
    var t, n, kk := Top(op), N(op), KK(op);
    if op == 0x00E0 || op == 0x00EE {
      assert t == 0 && n == op % 0x10;
    } else if t == 0x5 || t == 0x9 || t == 0x8 {
    } else if t == 0xE || t == 0xF {
      assert n == kk % 0x10;
    }
  }

  /** A word the dispatch ignores is undefined in the reference as well. */
  lemma NullOnlyForUndefined(op: Word)
    requires Decode(op) == Null
    ensures Reference(op) == Null
  {
    if Reference(op) != Null {
      DecodeAgreesWithReference(op);
    }
  }

  /** The dispatch reads only the low nibble in families 0x0, 0x8 and 0xE
      and never the low nibble of 5xy0 and 9xy0: words the reference
      leaves undefined still reach a handler. */
  lemma LooseDecodeExamples()
    ensures Decode(0x0230) == Cls && Reference(0x0230) == Null
    ensures Decode(0x5121) == SeReg && Reference(0x5121) == Null
    ensures Decode(0xE19E) == Skp && Decode(0xE1FE) == Skp && Reference(0xE1FE) == Null
    ensures Decode(0x0000) == Cls && Reference(0x0000) == Null
    ensures Decode(0x012E) == Ret && Reference(0x012E) == Null
  {
  }

  /** The indices that run past a declared secondary table. */
  lemma AsWrittenOverruns(op: Word)
    ensures AsWrittenDecode(op).None? <==>
      (Top(op) in {0x0, 0x8, 0xE} && N(op) == 0xF) || (Top(op) == 0xF && KK(op) > 0x65)
  {
  }

  lemma AsWrittenOverrunExamples()
    ensures AsWrittenDecode(0x000F).None?
    ensures AsWrittenDecode(0x812F).None?
    ensures AsWrittenDecode(0xE00F).None?
    ensures AsWrittenDecode(0xF0FF).None?
    ensures Decode(0x000F) == Null && Decode(0xF0FF) == Null
  {
  }
}
