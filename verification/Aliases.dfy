/** What the lowered aliases do when the processor runs them
    (crates/e5r-asm/src/aarch64.rs; Arm ARM DDI 0487, section C6.2). */
module Aliases {
  import opened Ordered
  import opened Bits
  import opened BitMask
  import opened Aarch64
  import opened Arith

  // ------------------------------------------------------- packing round trips

  lemma UnpackBitfield(sf: bool, opc: nat, immr: nat, imms: nat, rn: nat, rd: nat)
    requires opc < 4 && immr < 64 && imms < 64 && rn < 32 && rd < 32
    ensures var w := PackBitfield(sf, opc, immr, imms, rn, rd);
      w < 0x1_0000_0000 &&
      (w / 0x8000_0000 % 2 == 1) == sf && w / 0x2000_0000 % 4 == opc && w / 0x80_0000 % 64 == 0x26 &&
      w / 0x40_0000 % 2 == B(sf) && w / 0x1_0000 % 64 == immr && w / 0x400 % 64 == imms &&
      w / 0x20 % 32 == rn && w % 32 == rd
  {
    var w := PackBitfield(sf, opc, immr, imms, rn, rd);
    Arith.FieldAt(w, 0, B(sf), opc * 0x20000000 + 0x26 * 0x800000 + B(sf) * 0x400000 + immr * 0x10000 + imms * 0x400 + rn * 0x20 + rd, 0x80000000, 0x2);
    Arith.FieldAt(w, B(sf), opc, 0x26 * 0x800000 + B(sf) * 0x400000 + immr * 0x10000 + imms * 0x400 + rn * 0x20 + rd, 0x20000000, 0x4);
    Arith.FieldAt(w, B(sf) * 0x4 + opc, 0x26, B(sf) * 0x400000 + immr * 0x10000 + imms * 0x400 + rn * 0x20 + rd, 0x800000, 0x40);
    Arith.FieldAt(w, B(sf) * 0x100 + opc * 0x40 + 0x26, B(sf), immr * 0x10000 + imms * 0x400 + rn * 0x20 + rd, 0x400000, 0x2);
    Arith.FieldAt(w, B(sf) * 0x200 + opc * 0x80 + 0x26 * 0x2 + B(sf), immr, imms * 0x400 + rn * 0x20 + rd, 0x10000, 0x40);
    Arith.FieldAt(w, B(sf) * 0x8000 + opc * 0x2000 + 0x26 * 0x80 + B(sf) * 0x40 + immr, imms, rn * 0x20 + rd, 0x400, 0x40);
    Arith.FieldAt(w, B(sf) * 0x200000 + opc * 0x80000 + 0x26 * 0x2000 + B(sf) * 0x1000 + immr * 0x40 + imms, rn, rd, 0x20, 0x20);
    Arith.FieldAt(w, B(sf) * 0x4000000 + opc * 0x1000000 + 0x26 * 0x40000 + B(sf) * 0x20000 + immr * 0x800 + imms * 0x20 + rn, rd, 0, 0x1, 0x20);
  }

  lemma UnpackExtract(sf: bool, rm: nat, imms: nat, rn: nat, rd: nat)
    requires rm < 32 && imms < 64 && rn < 32 && rd < 32
    ensures var w := PackExtract(sf, rm, imms, rn, rd);
      w < 0x1_0000_0000 &&
      (w / 0x8000_0000 % 2 == 1) == sf && w / 0x2000_0000 % 4 == 0 && w / 0x80_0000 % 64 == 0x27 &&
      w / 0x40_0000 % 2 == B(sf) && w / 0x20_0000 % 2 == 0 && w / 0x1_0000 % 32 == rm && w / 0x400 % 64 == imms &&
      w / 0x20 % 32 == rn && w % 32 == rd
  {
    var w := PackExtract(sf, rm, imms, rn, rd);
    Arith.FieldAt(w, 0, B(sf), 0 * 0x20000000 + 0x27 * 0x800000 + B(sf) * 0x400000 + 0 * 0x200000 + rm * 0x10000 + imms * 0x400 + rn * 0x20 + rd, 0x80000000, 0x2);
    Arith.FieldAt(w, B(sf), 0, 0x27 * 0x800000 + B(sf) * 0x400000 + 0 * 0x200000 + rm * 0x10000 + imms * 0x400 + rn * 0x20 + rd, 0x20000000, 0x4);
    Arith.FieldAt(w, B(sf) * 0x4 + 0, 0x27, B(sf) * 0x400000 + 0 * 0x200000 + rm * 0x10000 + imms * 0x400 + rn * 0x20 + rd, 0x800000, 0x40);
    Arith.FieldAt(w, B(sf) * 0x100 + 0 * 0x40 + 0x27, B(sf), 0 * 0x200000 + rm * 0x10000 + imms * 0x400 + rn * 0x20 + rd, 0x400000, 0x2);
    Arith.FieldAt(w, B(sf) * 0x200 + 0 * 0x80 + 0x27 * 0x2 + B(sf), 0, rm * 0x10000 + imms * 0x400 + rn * 0x20 + rd, 0x200000, 0x2);
    Arith.FieldAt(w, B(sf) * 0x400 + 0 * 0x100 + 0x27 * 0x4 + B(sf) * 0x2 + 0, rm, imms * 0x400 + rn * 0x20 + rd, 0x10000, 0x20);
    Arith.FieldAt(w, B(sf) * 0x8000 + 0 * 0x2000 + 0x27 * 0x80 + B(sf) * 0x40 + 0 * 0x20 + rm, imms, rn * 0x20 + rd, 0x400, 0x40);
    Arith.FieldAt(w, B(sf) * 0x200000 + 0 * 0x80000 + 0x27 * 0x2000 + B(sf) * 0x1000 + 0 * 0x800 + rm * 0x40 + imms, rn, rd, 0x20, 0x20);
    Arith.FieldAt(w, B(sf) * 0x4000000 + 0 * 0x1000000 + 0x27 * 0x40000 + B(sf) * 0x20000 + 0 * 0x10000 + rm * 0x800 + imms * 0x20 + rn, rd, 0, 0x1, 0x20);
  }

  lemma UnpackMoveWide(sf: bool, opc: nat, hw: nat, imm16: nat, rd: nat)
    requires opc < 4 && hw < 4 && imm16 < 0x1_0000 && rd < 32
    ensures var w := PackMoveWide(sf, opc, hw, imm16, rd);
      w < 0x1_0000_0000 &&
      (w / 0x8000_0000 % 2 == 1) == sf && w / 0x2000_0000 % 4 == opc && w / 0x80_0000 % 64 == 0x25 &&
      w / 0x20_0000 % 4 == hw && w / 0x20 % 0x1_0000 == imm16 && w % 32 == rd
  {
    var w := PackMoveWide(sf, opc, hw, imm16, rd);
    Arith.FieldAt(w, 0, B(sf), opc * 0x20000000 + 0x25 * 0x800000 + hw * 0x200000 + imm16 * 0x20 + rd, 0x80000000, 0x2);
    Arith.FieldAt(w, B(sf), opc, 0x25 * 0x800000 + hw * 0x200000 + imm16 * 0x20 + rd, 0x20000000, 0x4);
    Arith.FieldAt(w, B(sf) * 0x4 + opc, 0x25, hw * 0x200000 + imm16 * 0x20 + rd, 0x800000, 0x40);
    Arith.FieldAt(w, B(sf) * 0x100 + opc * 0x40 + 0x25, hw, imm16 * 0x20 + rd, 0x200000, 0x4);
    Arith.FieldAt(w, B(sf) * 0x400 + opc * 0x100 + 0x25 * 0x4 + hw, imm16, rd, 0x20, 0x10000);
    Arith.FieldAt(w, B(sf) * 0x4000000 + opc * 0x1000000 + 0x25 * 0x40000 + hw * 0x10000 + imm16, rd, 0, 0x1, 0x20);
  }

  lemma UnpackOrr(sf: bool, f: Fields, rd: nat)
    requires InRange(f) && rd < 32
    ensures var w := PackOrrImmediate(sf, f, rd);
      w < 0x1_0000_0000 &&
      (w / 0x8000_0000 % 2 == 1) == sf && w / 0x2000_0000 % 4 == 1 && w / 0x80_0000 % 64 == 0x24 &&
      w / 0x40_0000 % 2 == f.n && w / 0x1_0000 % 64 == f.immr && w / 0x400 % 64 == f.imms &&
      w / 0x20 % 32 == 31 && w % 32 == rd
  {
    var w := PackOrrImmediate(sf, f, rd);
    Arith.FieldAt(w, 0, B(sf), 1 * 0x20000000 + 0x24 * 0x800000 + f.n * 0x400000 + f.immr * 0x10000 + f.imms * 0x400 + 31 * 0x20 + rd, 0x80000000, 0x2);
    Arith.FieldAt(w, B(sf), 1, 0x24 * 0x800000 + f.n * 0x400000 + f.immr * 0x10000 + f.imms * 0x400 + 31 * 0x20 + rd, 0x20000000, 0x4);
    Arith.FieldAt(w, B(sf) * 0x4 + 1, 0x24, f.n * 0x400000 + f.immr * 0x10000 + f.imms * 0x400 + 31 * 0x20 + rd, 0x800000, 0x40);
    Arith.FieldAt(w, B(sf) * 0x100 + 1 * 0x40 + 0x24, f.n, f.immr * 0x10000 + f.imms * 0x400 + 31 * 0x20 + rd, 0x400000, 0x2);
    Arith.FieldAt(w, B(sf) * 0x200 + 1 * 0x80 + 0x24 * 0x2 + f.n, f.immr, f.imms * 0x400 + 31 * 0x20 + rd, 0x10000, 0x40);
    Arith.FieldAt(w, B(sf) * 0x8000 + 1 * 0x2000 + 0x24 * 0x80 + f.n * 0x40 + f.immr, f.imms, 31 * 0x20 + rd, 0x400, 0x40);
    Arith.FieldAt(w, B(sf) * 0x200000 + 1 * 0x80000 + 0x24 * 0x2000 + f.n * 0x1000 + f.immr * 0x40 + f.imms, 31, rd, 0x20, 0x20);
    Arith.FieldAt(w, B(sf) * 0x4000000 + 1 * 0x1000000 + 0x24 * 0x40000 + f.n * 0x20000 + f.immr * 0x800 + f.imms * 0x20 + 31, rd, 0, 0x1, 0x20);
  }

  // ------------------------------------------------------------ bitfield moves

  predicate LegalFields(sf: bool, immr: nat, imms: nat) {
    immr < Width(sf) && imms < Width(sf)
  }

  function FieldsFor(sf: bool, immr: nat, imms: nat): Fields {
    Fields(B(sf), immr, imms)
  }

  /** At a register's own width the two masks are a rotated run and a low run. */
  lemma MasksAtWidth(sf: bool, immr: nat, imms: nat, i: nat)
    requires LegalFields(sf, immr, imms) && i < Width(sf)
    ensures var f := FieldsFor(sf, immr, imms);
      InRange(f) && Len(f) >= 1 && Pow2(Len(f)) == Width(sf) &&
      MaskBit(f, i) == (Wrap(i + immr, Width(sf)) <= imms) &&
      TopMaskBit(f, i) == (i <= if imms >= immr then imms - immr else imms + Width(sf) - immr) &&
      (i + immr) % Width(sf) == Wrap(i + immr, Width(sf))
  {
    var f, w := FieldsFor(sf, immr, imms), Width(sf);
    LenOfSize(f, w);
    ModSmall(immr, w);
    ModSmall(imms, w);
    SumWraps(i, immr, w);
    GapWraps(imms, immr, i, w);
    TopMaskAt(f, i, w, if imms >= immr then imms - immr else imms + w - immr);
  }

  lemma TopMaskAt(f: Fields, i: nat, w: nat, top: nat)
    requires InRange(f) && Len(f) >= 1 && w == Pow2(Len(f)) && i % w == i && f.immr % w == f.immr && f.imms % w == f.imms
    requires (f.imms + w - f.immr) % w == top
    ensures TopMaskBit(f, i) == (i <= top)
  {
    assert (f.imms % w + w - f.immr % w) % w == top;
  }

  lemma SumWraps(i: nat, immr: nat, w: nat)
    requires i < w && immr < w
    ensures (i + immr) % w == Wrap(i + immr, w)
  {
    ModUnique(i + immr, if i + immr < w then 0 else 1, Wrap(i + immr, w), w);
  }

  lemma GapWraps(imms: nat, immr: nat, i: nat, w: nat)
    requires i < w && immr < w && imms < w
    ensures i % w == i && (imms + w - immr) % w == if imms >= immr then imms - immr else imms + w - immr
  {
    ModSmall(i, w);
    ModUnique(imms + w - immr, if imms >= immr then 1 else 0, if imms >= immr then imms - immr else imms + w - immr, w);
  }

  /** The bit a bitfield move puts at `i`, in terms of the fields alone. */
  predicate MovedBit(opc: nat, sf: bool, immr: nat, imms: nat, src: Word, dst: Word, i: nat)
    requires LegalFields(sf, immr, imms) && i < Width(sf)
  {
    var w := Width(sf);
    var k := Wrap(i + immr, w);
    var top := i <= if imms >= immr then imms - immr else imms + w - immr;
    if opc == 1 then (if top && k <= imms then src[k] else dst[i])
    else if top then src[k] && k <= imms
    else opc == 0 && src[imms]
  }

  lemma BitfieldMoveBits(opc: nat, sf: bool, immr: nat, imms: nat, src: Word, dst: Word)
    requires LegalFields(sf, immr, imms)
    ensures var f := FieldsFor(sf, immr, imms);
      InRange(f) && Len(f) >= 1 &&
      (forall i :: 0 <= i < Width(sf) ==> BitfieldMove(opc, sf, f, src, dst)[i] == MovedBit(opc, sf, immr, imms, src, dst, i)) &&
      (forall i :: Width(sf) <= i < 64 ==> !BitfieldMove(opc, sf, f, src, dst)[i])
  {
    MasksAtWidth(sf, immr, imms, 0);
    var f := FieldsFor(sf, immr, imms);
    forall i | 0 <= i < Width(sf)
      ensures BitfieldMove(opc, sf, f, src, dst)[i] == MovedBit(opc, sf, immr, imms, src, dst, i)
    {
      MasksAtWidth(sf, immr, imms, i);
    }
  }

  /** A packed bitfield move executes as the move of its fields. */
  lemma BitfieldExecutes(sf: bool, opc: nat, immr: nat, imms: nat, rn: nat, rd: nat, m: Machine, meaning: Word)
    requires m.Valid() && LegalFields(sf, immr, imms) && opc < 3 && rn < 32 && rd < 32
    requires forall i :: 0 <= i < Width(sf) ==>
      meaning[i] == MovedBit(opc, sf, immr, imms, ReadX(m, rn, sf), ReadX(m, rd, sf), i)
    requires forall i :: Width(sf) <= i < 64 ==> !meaning[i]
    ensures Execute(PackBitfield(sf, opc, immr, imms, rn, rd), m) == Some(WriteX(m, rd, sf, meaning))
  {
    UnpackBitfield(sf, opc, immr, imms, rn, rd);
    var src, dst := ReadX(m, rn, sf), ReadX(m, rd, sf);
    BitfieldMoveBits(opc, sf, immr, imms, src, dst);
    assert BitfieldMove(opc, sf, FieldsFor(sf, immr, imms), src, dst) == meaning;
  }

  // ------------------------------------------------------------ plain meanings

  /** What a shift by a constant means, bit by bit, at the register's width. */
  function ShiftMeaning(op: ShiftOp, sf: bool, n: nat, x: Word): (r: Word)
    requires n < Width(sf)
  {
    var w := Width(sf);
    seq(64, i requires 0 <= i < 64 => i < w &&
      match op
      case Lsl => i >= n && x[i - n]
      case Lsr => i + n < w && x[i + n]
      case Asr => x[if i + n < w then i + n else w - 1]
      case Ror => x[Wrap(i + n, w)])
  }

  /** What extracting or inserting a bitfield means. */
  function FieldMeaning(op: FieldOp, sf: bool, lsb: nat, width: nat, x: Word, dst: Word): (r: Word)
    requires 0 < width && lsb + width <= Width(sf)
  {
    seq(64, i requires 0 <= i < 64 => i < Width(sf) &&
      match op
      case Ubfx => i < width && x[lsb + i]
      case Sbfx => x[lsb + if i < width then i else width - 1]
      case Bfxil => if i < width then x[lsb + i] else dst[i]
      case Ubfiz => lsb <= i < lsb + width && x[i - lsb]
      case Sbfiz => i >= lsb && x[if i - lsb < width then i - lsb else width - 1]
      case Bfi => if lsb <= i < lsb + width then x[i - lsb] else dst[i])
  }

  function ExtendBits(op: ExtendOp): nat {
    match op case Sxtb => 8 case Uxtb => 8 case Sxth => 16 case Uxth => 16 case Sxtw => 32
  }

  function ExtendMeaning(op: ExtendOp, sf: bool, x: Word): (r: Word)
  {
    var k := ExtendBits(op);
    seq(64, i requires 0 <= i < 64 => i < Width(sf) &&
      if op.Uxtb? || op.Uxth? then i < k && x[i] else x[if i < k then i else k - 1])
  }

  // -------------------------------------------------------------- the theorems

  lemma RotateExecutes(sf: bool, n: nat, rn: nat, rd: nat, m: Machine)
    requires m.Valid() && n < Width(sf) && rn < 32 && rd < 32
    ensures Execute(PackExtract(sf, rn, n, rn, rd), m) == Some(WriteX(m, rd, sf, ShiftMeaning(Ror, sf, n, ReadX(m, rn, sf))))
  {
    UnpackExtract(sf, rn, n, rn, rd);
    var x := ReadX(m, rn, sf);
    var got, want := Extract(sf, x, x, n), ShiftMeaning(Ror, sf, n, x);
    forall i | 0 <= i < 64
      ensures got[i] == want[i]
    {
      if i < Width(sf) {
        assert want[i] == x[Wrap(i + n, Width(sf))];
      }
    }
    assert got == want;
  }

  function ShiftOpc(op: ShiftOp): nat {
    if op.Asr? then 0 else 2
  }

  function ShiftRotation(op: ShiftOp, sf: bool, n: nat): nat
    requires n < Width(sf)
  {
    if op.Lsl? then (Width(sf) - n) % Width(sf) else n
  }

  function ShiftTop(op: ShiftOp, sf: bool, n: nat): nat
    requires n < Width(sf)
  {
    if op.Lsl? then Width(sf) - 1 - n else Width(sf) - 1
  }

  lemma ShiftMoves(op: ShiftOp, sf: bool, n: nat, rn: nat, rd: nat, m: Machine)
    requires m.Valid() && n < Width(sf) && rn < 32 && rd < 32 && !op.Ror?
    ensures Execute(PackBitfield(sf, ShiftOpc(op), ShiftRotation(op, sf, n), ShiftTop(op, sf, n), rn, rd), m) ==
      Some(WriteX(m, rd, sf, ShiftMeaning(op, sf, n, ReadX(m, rn, sf))))
  {
    RotationAmount(sf, n);
    var immr, imms := ShiftRotation(op, sf, n), ShiftTop(op, sf, n);
    var src, dst := ReadX(m, rn, sf), ReadX(m, rd, sf);
    forall i | 0 <= i < Width(sf)
      ensures ShiftMeaning(op, sf, n, src)[i] == MovedBit(ShiftOpc(op), sf, immr, imms, src, dst, i)
    {
    }
    BitfieldExecutes(sf, ShiftOpc(op), immr, imms, rn, rd, m, ShiftMeaning(op, sf, n, src));
  }

  /** Which word a shift alias lowers to, and when it is refused. */
  lemma ShiftAccepted(op: ShiftOp, sf: bool, rd: Reg, rn: Reg, amount: int)
    requires ValidReg(rd) && ValidReg(rn)
    ensures if 0 <= amount < Width(sf)
      then EncodeShift(op, sf, rd, rn, amount) == Emit(
        if op.Ror? then PackExtract(sf, Num(rn), amount, Num(rn), Num(rd))
        else PackBitfield(sf, ShiftOpc(op), ShiftRotation(op, sf, amount), ShiftTop(op, sf, amount), Num(rn), Num(rd)))
      else EncodeShift(op, sf, rd, rn, amount) == Refused
  {
  }

  lemma RotationAmount(sf: bool, n: nat)
    requires n < Width(sf)
    ensures (Width(sf) - n) % Width(sf) == if n == 0 then 0 else Width(sf) - n
  {
    var w := Width(sf);
    Arith.ModUnique(w - n, if n == 0 then 1 else 0, if n == 0 then 0 else w - n, w);
  }

  /** A shift alias is accepted exactly for amounts below the register's width,
      and running what it lowers to is the shift. */
  lemma ShiftMeans(op: ShiftOp, sf: bool, rd: Reg, rn: Reg, amount: int, m: Machine)
    requires m.Valid() && ValidReg(rd) && ValidReg(rn)
    ensures EncodeShift(op, sf, rd, rn, amount).Emit? <==> 0 <= amount < Width(sf)
    ensures EncodeShift(op, sf, rd, rn, amount).Emit? ==>
      Execute(EncodeShift(op, sf, rd, rn, amount).word, m) ==
      Some(WriteX(m, Num(rd), sf, ShiftMeaning(op, sf, amount, ReadX(m, Num(rn), sf))))
  {
    ShiftAccepted(op, sf, rd, rn, amount);
    if 0 <= amount < Width(sf) {
      var n: nat := amount;
      if op.Ror? {
        RotateExecutes(sf, n, Num(rn), Num(rd), m);
      } else {
        ShiftMoves(op, sf, n, Num(rn), Num(rd), m);
      }
    }
  }

  lemma FieldMoves(op: FieldOp, sf: bool, rn: nat, rd: nat, lsb: nat, width: nat, m: Machine)
    requires m.Valid() && rn < 32 && rd < 32 && 0 < width && lsb + width <= Width(sf)
    ensures Execute(PackBitfield(sf, FieldOpc(op), FieldRotation(op, sf, lsb), FieldTop(op, lsb, width), rn, rd), m) ==
      Some(WriteX(m, rd, sf, FieldMeaning(op, sf, lsb, width, ReadX(m, rn, sf), ReadX(m, rd, sf))))
  {
    RotationAmount(sf, lsb);
    var immr, imms := FieldRotation(op, sf, lsb), FieldTop(op, lsb, width);
    var src, dst := ReadX(m, rn, sf), ReadX(m, rd, sf);
    forall i | 0 <= i < Width(sf)
      ensures FieldMeaning(op, sf, lsb, width, src, dst)[i] == MovedBit(FieldOpc(op), sf, immr, imms, src, dst, i)
    {
      FieldBit(op, sf, lsb, width, src, dst, i);
    }
    BitfieldExecutes(sf, FieldOpc(op), immr, imms, rn, rd, m, FieldMeaning(op, sf, lsb, width, src, dst));
  }

  lemma FieldBit(op: FieldOp, sf: bool, lsb: nat, width: nat, src: Word, dst: Word, i: nat)
    requires 0 < width && lsb + width <= Width(sf) && i < Width(sf)
    requires FieldRotation(op, sf, lsb) < Width(sf) && FieldTop(op, lsb, width) < Width(sf)
    ensures FieldMeaning(op, sf, lsb, width, src, dst)[i] ==
      MovedBit(FieldOpc(op), sf, FieldRotation(op, sf, lsb), FieldTop(op, lsb, width), src, dst, i)
  {
    RotationAmount(sf, lsb);
  }

  lemma BitfieldAccepted(op: FieldOp, sf: bool, rd: Reg, rn: Reg, lsb: int, width: int)
    requires ValidReg(rd) && ValidReg(rn) && width < 0x1_0000_0000
    ensures if 0 <= lsb < Width(sf) && 1 <= width <= Width(sf) - lsb
      then EncodeBitfield(op, sf, rd, rn, lsb, width) ==
        Emit(PackBitfield(sf, FieldOpc(op), FieldRotation(op, sf, lsb), FieldTop(op, lsb, width), Num(rn), Num(rd)))
      else EncodeBitfield(op, sf, rd, rn, lsb, width) == Refused
  {
    if width >= 1 {
      ModSmall(width, 0x1_0000_0000);
      assert Truncated32(width) == width;
    }
  }

  /** A bitfield alias on operands of at most 32 bits is accepted exactly for
      fields inside the register, and running what it lowers to moves that field. */
  lemma BitfieldMeans(op: FieldOp, sf: bool, rd: Reg, rn: Reg, lsb: int, width: int, m: Machine)
    requires m.Valid() && ValidReg(rd) && ValidReg(rn) && width < 0x1_0000_0000
    ensures var e := EncodeBitfield(op, sf, rd, rn, lsb, width);
      if 0 <= lsb < Width(sf) && 1 <= width <= Width(sf) - lsb
      then e.Emit? && Execute(e.word, m) == Some(WriteX(m, Num(rd), sf,
        FieldMeaning(op, sf, lsb, width, ReadX(m, Num(rn), sf), ReadX(m, Num(rd), sf))))
      else e == Refused
  {
    BitfieldAccepted(op, sf, rd, rn, lsb, width);
    if 0 <= lsb < Width(sf) && 1 <= width <= Width(sf) - lsb {
      FieldMoves(op, sf, Num(rn), Num(rd), lsb, width, m);
    }
  }

  /** An accepted bitfield alias is a legal one exactly when its width was not
      cut down on the way: 2^32 + 1 is taken for 1. */
  lemma BitfieldLegalIff(op: FieldOp, sf: bool, rd: Reg, rn: Reg, lsb: int, width: int)
    requires ValidReg(rd) && ValidReg(rn) && EncodeBitfield(op, sf, rd, rn, lsb, width).Emit?
    ensures 1 <= width <= Width(sf) - lsb <==> width < 0x1_0000_0000
    ensures Truncated32(width) > 0 ==>
      EncodeBitfield(op, sf, rd, rn, lsb, width) == EncodeBitfield(op, sf, rd, rn, lsb, Truncated32(width))
  {
    var t := Truncated32(width);
    DivMod(width, 0x1_0000_0000);
    ModSmall(t, 0x1_0000_0000);
    if width < 0x1_0000_0000 {
      ModSmall(width, 0x1_0000_0000);
    }
  }

  /** The alias that inserts where this one extracts. */
  function InsertFor(op: FieldOp): FieldOp {
    match op
    case Ubfx => Ubfiz
    case Sbfx => Sbfiz
    case Bfxil => Bfi
    case _ => op
  }

  /** A width that is cut to nothing is still taken by the extracting aliases, past
      position zero: what they are lowered to then inserts the low `lsb` bits at the
      top of the register. */
  lemma NoWidthInserts(op: FieldOp, sf: bool, rd: Reg, rn: Reg, lsb: nat, m: Machine)
    requires m.Valid() && ValidReg(rd) && ValidReg(rn) && 0 < lsb < Width(sf) && !Inserts(op)
    ensures EncodeBitfield(op, sf, rd, rn, lsb, 0x1_0000_0000) ==
      EncodeBitfield(InsertFor(op), sf, rd, rn, Width(sf) - lsb, lsb)
    ensures var e := EncodeBitfield(op, sf, rd, rn, lsb, 0x1_0000_0000);
      e.Emit? && Execute(e.word, m) == Some(WriteX(m, Num(rd), sf,
        FieldMeaning(InsertFor(op), sf, Width(sf) - lsb, lsb, ReadX(m, Num(rn), sf), ReadX(m, Num(rd), sf))))
  {
    NoWidthLowered(op, sf, rd, rn, lsb);
    BitfieldMeans(InsertFor(op), sf, rd, rn, Width(sf) - lsb, lsb, m);
  }

  lemma NoWidthLowered(op: FieldOp, sf: bool, rd: Reg, rn: Reg, lsb: nat)
    requires ValidReg(rd) && ValidReg(rn) && 0 < lsb < Width(sf) && !Inserts(op)
    ensures EncodeBitfield(op, sf, rd, rn, lsb, 0x1_0000_0000) ==
      EncodeBitfield(InsertFor(op), sf, rd, rn, Width(sf) - lsb, lsb)
  {
    ModSmall(lsb, Width(sf));
    ModSmall(lsb, 0x1_0000_0000);
  }

  /** Of `ubfx` that is a shift to the left. */
  lemma NoWidthIsShift(sf: bool, rd: Reg, rn: Reg, lsb: nat)
    requires ValidReg(rd) && ValidReg(rn) && 0 < lsb < Width(sf)
    ensures EncodeBitfield(Ubfx, sf, rd, rn, lsb, 0x1_0000_0000) == EncodeShift(Lsl, sf, rd, rn, Width(sf) - lsb)
    ensures EncodeBitfield(Ubfx, sf, rd, rn, lsb, 0x1_0000_0000).Emit?
  {
    ModSmall(lsb, Width(sf));
  }

  lemma CutWidthAccepted(op: FieldOp)
    ensures EncodeBitfield(op, true, Gpr(0), Gpr(1), 0, 0x1_0000_0001).Emit?
  {
  }

  /** An extend alias that is accepted extends. */
  lemma ExtendMeans(op: ExtendOp, sf: bool, rd: Reg, rn: Reg, m: Machine)
    requires m.Valid() && ValidReg(rd) && ValidReg(rn)
    ensures EncodeExtend(op, sf, rd, rn).Emit? <==> if op.Sxtw? then sf else if op.Uxtb? || op.Uxth? then !sf else true
    ensures EncodeExtend(op, sf, rd, rn).Emit? ==>
      Execute(EncodeExtend(op, sf, rd, rn).word, m) ==
      Some(WriteX(m, Num(rd), sf, ExtendMeaning(op, sf, ReadX(m, Num(rn), sf))))
  {
    if EncodeExtend(op, sf, rd, rn).Emit? {
      var opc := if op.Uxtb? || op.Uxth? then 2 else 0;
      BitfieldExecutes(sf, opc, 0, ExtendBits(op) - 1, Num(rn), Num(rd), m, ExtendMeaning(op, sf, ReadX(m, Num(rn), sf)));
    }
  }

  // ------------------------------------------------------------ the stack pointer

  function AsZero(r: Reg): Reg {
    if r.Sp? then Zr else r
  }

  /** None of these aliases tells the stack pointer from the zero register. */
  lemma StackTakenForZero(sf: bool, rd: Reg, rn: Reg, amount: int, width: int)
    requires ValidReg(rd) && ValidReg(rn)
    ensures forall op :: EncodeShift(op, sf, rd, rn, amount) == EncodeShift(op, sf, AsZero(rd), AsZero(rn), amount)
    ensures forall op :: EncodeBitfield(op, sf, rd, rn, amount, width) == EncodeBitfield(op, sf, AsZero(rd), AsZero(rn), amount, width)
    ensures forall op :: EncodeExtend(op, sf, rd, rn) == EncodeExtend(op, sf, AsZero(rd), AsZero(rn))
  {
    assert Num(rd) == Num(AsZero(rd)) && Num(rn) == Num(AsZero(rn));
  }

  /** So a shift of the stack pointer leaves zero in a general register, whatever
      the stack pointer holds. */
  lemma StackShiftsToZero(op: ShiftOp, sf: bool, n: nat, amount: nat, m: Machine)
    requires m.Valid() && n <= 30 && amount < Width(sf)
    ensures EncodeShift(op, sf, Gpr(n), Sp, amount).Emit?
    ensures Execute(EncodeShift(op, sf, Gpr(n), Sp, amount).word, m) == Some(m.(x := m.x[n := Zero()]))
  {
    ShiftMeans(op, sf, Gpr(n), Sp, amount, m);
    ZeroShifted(op, sf, amount);
  }

  lemma ZeroShifted(op: ShiftOp, sf: bool, amount: nat)
    requires amount < Width(sf)
    ensures Low(ShiftMeaning(op, sf, amount, Zero()), Width(sf)) == Zero()
  {
    var x: Word := Zero();
    assert forall i :: 0 <= i < 64 ==> !x[i];
    var shifted := ShiftMeaning(op, sf, amount, x);
    forall i | 0 <= i < Width(sf) ensures !shifted[i] {
      match op
      case Lsl => assert i >= amount ==> !x[i - amount];
      case Lsr => assert i + amount < Width(sf) ==> !x[i + amount];
      case Asr => assert !x[if i + amount < Width(sf) then i + amount else Width(sf) - 1];
      case Ror => assert !x[Wrap(i + amount, Width(sf))];
    }
    var z := Low(shifted, Width(sf));
    assert forall i :: 0 <= i < 64 ==> z[i] == x[i];
  }
}
