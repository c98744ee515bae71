/** Shift, bitfield, extend and move aliases as the encoder lowers them
    (crates/e5r-asm/src/aarch64.rs). */
module Aarch64 {
  import opened Ordered
  import opened Bits
  import opened BitMask
  import opened Arith

  /** A general register, the stack pointer, or the zero register. */
  datatype Reg = Gpr(n: nat) | Sp | Zr

  predicate ValidReg(r: Reg) {
    r.Gpr? ==> r.n <= 30
  }

  /** The register field: both the stack pointer and the zero register are 31. */
  function Num(r: Reg): (n: nat)
    requires ValidReg(r)
    ensures n < 32
  {
    if r.Gpr? then r.n else 31
  }

  function B(b: bool): nat {
    if b then 1 else 0
  }

  function Width(sf: bool): nat {
    if sf then 64 else 32
  }

  /** What an assembler entry gives back. */
  datatype Encoding = Emit(word: nat) | Refused | Overflow

  // ---------------------------------------------------------------- packing

  /** The fields are disjoint, so joining them is adding them. */
  function PackBitfield(sf: bool, opc: nat, immr: nat, imms: nat, rn: nat, rd: nat): nat {
    B(sf) * 0x8000_0000 + opc * 0x2000_0000 + 0x26 * 0x80_0000 + B(sf) * 0x40_0000 +
    immr * 0x1_0000 + imms * 0x400 + rn * 0x20 + rd
  }

  function PackExtract(sf: bool, rm: nat, imms: nat, rn: nat, rd: nat): nat {
    B(sf) * 0x8000_0000 + 0x27 * 0x80_0000 + B(sf) * 0x40_0000 + rm * 0x1_0000 + imms * 0x400 + rn * 0x20 + rd
  }

  function PackMoveWide(sf: bool, opc: nat, hw: nat, imm16: nat, rd: nat): nat {
    B(sf) * 0x8000_0000 + opc * 0x2000_0000 + 0x25 * 0x80_0000 + hw * 0x20_0000 + imm16 * 0x20 + rd
  }

  function PackOrrImmediate(sf: bool, f: Fields, rd: nat): nat {
    B(sf) * 0x8000_0000 + 1 * 0x2000_0000 + 0x24 * 0x80_0000 + f.n * 0x40_0000 +
    f.immr * 0x1_0000 + f.imms * 0x400 + 31 * 0x20 + rd
  }

  // ------------------------------------------------------------ the aliases

  datatype ShiftOp = Lsl | Lsr | Asr | Ror

  /** A value that has to fit in this many bits without a sign. */
  predicate FitsUnsigned(v: int, limit: nat) {
    0 <= v < limit
  }

  function EncodeShift(op: ShiftOp, sf: bool, rd: Reg, rn: Reg, amount: int): Encoding
    requires ValidReg(rd) && ValidReg(rn)
  {
    var width := Width(sf);
    if !FitsUnsigned(amount, 64) || amount >= width then Refused else
    var n: nat := amount;
    match op
    case Lsl => Emit(PackBitfield(sf, 2, (width - n) % width, width - 1 - n, Num(rn), Num(rd)))
    case Lsr => Emit(PackBitfield(sf, 2, n, width - 1, Num(rn), Num(rd)))
    case Asr => Emit(PackBitfield(sf, 0, n, width - 1, Num(rn), Num(rd)))
    case Ror => Emit(PackExtract(sf, Num(rn), n, Num(rn), Num(rd)))
  }

  datatype FieldOp = Ubfx | Sbfx | Bfxil | Ubfiz | Sbfiz | Bfi

  function FieldOpc(op: FieldOp): nat {
    if op.Sbfx? || op.Sbfiz? then 0 else if op.Bfxil? || op.Bfi? then 1 else 2
  }

  predicate Inserts(op: FieldOp) {
    op.Sbfiz? || op.Ubfiz? || op.Bfi?
  }

  function FieldRotation(op: FieldOp, sf: bool, lsb: nat): nat
    requires lsb < Width(sf)
  {
    if Inserts(op) then (Width(sf) - lsb) % Width(sf) else lsb
  }

  function FieldTop(op: FieldOp, lsb: nat, width: nat): nat
    requires width > 0 || (!Inserts(op) && lsb > 0)
  {
    if Inserts(op) then width - 1 else lsb + width - 1
  }

  /** A signed 64-bit number cut down to 32 bits without a sign. */
  function Truncated32(v: int): nat {
    v % 0x1_0000_0000
  }

  function EncodeBitfield(op: FieldOp, sf: bool, rd: Reg, rn: Reg, lsb: int, width: int): Encoding
    requires ValidReg(rd) && ValidReg(rn)
  {
    var regsize := Width(sf);
    if !FitsUnsigned(lsb, 64) || lsb >= regsize then Refused else
    var low: nat := lsb;
    // The width is cut to 32 bits before it is compared.
    if width < 1 || Truncated32(width) > regsize - low then Refused else
    var w := Truncated32(width);
    if w == 0 && (Inserts(op) || low == 0) then Overflow else
    Emit(PackBitfield(sf, FieldOpc(op), FieldRotation(op, sf, low), FieldTop(op, low, w), Num(rn), Num(rd)))
  }

  datatype ExtendOp = Sxtb | Sxth | Sxtw | Uxtb | Uxth

  function EncodeExtend(op: ExtendOp, sf: bool, rd: Reg, rn: Reg): Encoding
    requires ValidReg(rd) && ValidReg(rn)
  {
    if (op.Sxtw? && !sf) || ((op.Uxtb? || op.Uxth?) && sf) then Refused else
    var opc := if op.Uxtb? || op.Uxth? then 2 else 0;
    var imms := match op case Sxtb => 7 case Uxtb => 7 case Sxth => 15 case Uxth => 15 case Sxtw => 31;
    Emit(PackBitfield(sf, opc, 0, imms, Num(rn), Num(rd)))
  }

  // ------------------------------------------------------------ the machine

  datatype Machine = Machine(x: seq<Word>, sp: Word) {
    ghost predicate Valid() {
      |x| == 31
    }
  }

  function Low(w: Word, n: nat): (r: Word)
    ensures forall i :: 0 <= i < 64 ==> r[i] == (i < n && w[i])
  {
    And(w, MaskBits(n))
  }

  /** Register 31 reads as zero where these instructions use it. */
  function ReadX(m: Machine, n: nat, sf: bool): Word
    requires m.Valid() && n < 32
  {
    if n == 31 then Zero() else Low(m.x[n], Width(sf))
  }

  /** Writing a 32-bit register clears the top half; register 31 discards. */
  function WriteX(m: Machine, n: nat, sf: bool, v: Word): (r: Machine)
    requires m.Valid() && n < 32
    ensures r.Valid()
  {
    if n == 31 then m else m.(x := m.x[n := Low(v, Width(sf))])
  }

  /** Register 31 is the stack pointer in the immediate logical instructions. */
  function WriteXOrSp(m: Machine, n: nat, sf: bool, v: Word): (r: Machine)
    requires m.Valid() && n < 32
    ensures r.Valid()
  {
    if n == 31 then m.(sp := Low(v, Width(sf))) else WriteX(m, n, sf, v)
  }

  /** The bitfield instructions' second mask: `Ones(d + 1)` in each element,
      where `d` is `S - R` at the element's width. */
  predicate TopMaskBit(f: Fields, i: nat)
    requires InRange(f) && Len(f) >= 1
  {
    var size := Pow2(Len(f));
    i % size <= (f.imms % size + size - f.immr % size) % size
  }

  /** SBFM, BFM and UBFM: rotate, mask, and fill or keep what is outside. */
  function BitfieldMove(opc: nat, sf: bool, f: Fields, src: Word, dst: Word): (r: Word)
    requires InRange(f) && Len(f) >= 1 && f.imms < Width(sf)
  {
    var w := Width(sf);
    seq(64, i requires 0 <= i < 64 =>
      i < w &&
      var rot := src[(i + f.immr) % w];
      if opc == 1 then (if TopMaskBit(f, i) && MaskBit(f, i) then rot else dst[i])
      else if TopMaskBit(f, i) then rot && MaskBit(f, i)
      else opc == 0 && src[f.imms])
  }

  /** EXTR: a register's worth of bits from two registers end to end. */
  function Extract(sf: bool, high: Word, low: Word, lsb: nat): (r: Word)
    requires lsb < Width(sf)
  {
    var w := Width(sf);
    seq(64, i requires 0 <= i < 64 => i < w && if i + lsb < w then low[i + lsb] else high[i + lsb - w])
  }

  function ToNat(bits: seq<bool>): nat {
    if bits == [] then 0 else B(bits[0]) + 2 * ToNat(bits[1..])
  }

  function BitOf(v: nat, i: nat): bool
    decreases i
  {
    if i == 0 then v % 2 == 1 else BitOf(v / 2, i - 1)
  }

  function FromNat(v: nat): (w: Word) {
    seq(64, i requires 0 <= i < 64 => BitOf(v, i))
  }

  /** MOVZ and MOVN: sixteen bits at one of the register's quarters, or their
      complement. */
  function MoveWide(opc: nat, sf: bool, hw: nat, imm16: nat): Word {
    var placed := Shl(FromNat(imm16), hw * 16);
    if opc == 2 then placed else Not(placed)
  }

  /** Execute one encoded word of the four groups, or nothing when the encoding
      is not allocated. */
  function Execute(w: nat, m: Machine): (r: Option<Machine>)
    requires m.Valid()
    ensures r.Some? ==> r.value.Valid()
  {
    var sf, opc, group := w / 0x8000_0000 % 2 == 1, w / 0x2000_0000 % 4, w / 0x80_0000 % 64;
    var n, immr, imms := w / 0x40_0000 % 2, w / 0x1_0000 % 64, w / 0x400 % 64;
    var rn, rd := w / 0x20 % 32, w % 32;
    var f := Fields(n, immr, imms);
    if group == 0x26 then
      if opc == 3 || n != B(sf) || (!sf && (immr >= 32 || imms >= 32)) || Len(f) < 1 then None
      else Some(WriteX(m, rd, sf, BitfieldMove(opc, sf, f, ReadX(m, rn, sf), ReadX(m, rd, sf))))
    else if group == 0x27 then
      var rm := w / 0x1_0000 % 32;
      if opc != 0 || n != B(sf) || w / 0x20_0000 % 2 != 0 || (!sf && imms >= 32) then None
      else Some(WriteX(m, rd, sf, Extract(sf, ReadX(m, rn, sf), ReadX(m, rm, sf), imms)))
    else if group == 0x25 then
      var hw, imm16 := w / 0x20_0000 % 4, w / 0x20 % 0x1_0000;
      if (opc != 0 && opc != 2) || (!sf && hw >= 2) then None
      else Some(WriteX(m, rd, sf, MoveWide(opc, sf, hw, imm16)))
    else if group == 0x24 then
      if opc != 1 || Len(f) < 1 || !Allocated(f, sf) then None
      else Some(WriteXOrSp(m, rd, sf, Or(ReadX(m, rn, sf), Decode(f, sf))))
    else None
  }
}
