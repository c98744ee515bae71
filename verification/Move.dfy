/** Moving a constant into a register: MOVZ, MOVN or a logical immediate, in that
    order (crates/e5r-asm/src/aarch64.rs; Arm ARM DDI 0487, section C6.2). */
module Move {
  import opened Ordered
  import opened Bits
  import opened BitMask
  import opened Arith
  import opened Aarch64
  import opened Aliases

  // -------------------------------------------------- numbers and their bits

  lemma {:induction false} NatBits(w: seq<bool>, i: nat)
    ensures BitOf(ToNat(w), i) == (i < |w| && w[i])
    decreases |w|, i
  {
    if w == [] {
      ZeroBits(i);
    } else if i > 0 {
      assert ToNat(w) / 2 == ToNat(w[1..]);
      NatBits(w[1..], i - 1);
    }
  }

  lemma {:induction false} ZeroBits(i: nat)
    ensures !BitOf(0, i)
  {
    if i > 0 {
      ZeroBits(i - 1);
    }
  }

  lemma {:induction false} NatBelow(w: seq<bool>, n: nat)
    requires forall i :: n <= i < |w| ==> !w[i]
    ensures ToNat(w) < Pow2(n)
  {
    if w == [] {
    } else if n == 0 {
      NatBelow(w[1..], 0);
    } else {
      NatBelow(w[1..], n - 1);
    }
  }

  lemma {:induction false} BitsBelow(v: nat, n: nat, i: nat)
    requires v < Pow2(n) && n <= i
    ensures !BitOf(v, i)
    decreases i
  {
    if n == 0 {
      ZeroBits(i);
    } else {
      BitsBelow(v / 2, n - 1, i - 1);
    }
  }

  lemma Pow16()
    ensures Pow2(16) == 0x1_0000
  {
    assert Pow2(4) == 16 && Pow2(8) == 16 * Pow2(4) && Pow2(12) == 16 * Pow2(8) && Pow2(16) == 16 * Pow2(12);
  }

  /** A word is its number's bits. */
  lemma FromToNat(w: Word)
    ensures FromNat(ToNat(w)) == w
  {
    forall i | 0 <= i < 64
      ensures FromNat(ToNat(w))[i] == w[i]
    {
      NatBits(w, i);
    }
  }

  // --------------------------------------------------------------- move-wide

  /** Every set bit is inside quarter `hw`. */
  predicate InQuarter(v: Word, hw: nat) {
    forall i :: 0 <= i < 64 && v[i] ==> hw * 16 <= i < hw * 16 + 16
  }

  function OutsideQuarter(v: Word, hw: nat): Word {
    And(v, Not(Shl(MaskBits(16), hw * 16)))
  }

  function Quarter(v: Word, hw: nat): nat {
    ToNat(And(Shr(v, hw * 16), MaskBits(16)))
  }

  lemma OutsideIff(v: Word, hw: nat)
    ensures OutsideQuarter(v, hw) == Zero() <==> InQuarter(v, hw)
  {
    var o := OutsideQuarter(v, hw);
    if InQuarter(v, hw) {
      assert o == Zero();
    } else {
      var i :| 0 <= i < 64 && v[i] && !(hw * 16 <= i < hw * 16 + 16);
      assert o[i];
    }
  }

  /** Sixteen bits placed back where they came from. */
  lemma QuarterRebuilds(v: Word, hw: nat)
    requires InQuarter(v, hw) && hw < 4
    ensures Quarter(v, hw) < 0x1_0000 && Shl(FromNat(Quarter(v, hw)), hw * 16) == v
  {
    var q := And(Shr(v, hw * 16), MaskBits(16));
    NatBelow(q, 16);
    Pow16();
    FromToNat(q);
    assert Shl(q, hw * 16) == v;
  }

  lemma PlacedInQuarter(imm16: nat, hw: nat)
    requires imm16 < 0x1_0000
    ensures InQuarter(Shl(FromNat(imm16), hw * 16), hw)
  {
    Pow16();
    var placed := Shl(FromNat(imm16), hw * 16);
    forall i | 0 <= i < 64 && placed[i]
      ensures hw * 16 <= i < hw * 16 + 16
    {
      if i >= hw * 16 + 16 {
        BitsBelow(imm16, 16, i - hw * 16);
      }
    }
  }

  function Quarters(sf: bool): nat {
    if sf then 4 else 2
  }

  /** Some move-wide of this opcode puts exactly `v` in a register. */
  ghost predicate WideBuilds(opc: nat, sf: bool, v: Word) {
    exists hw: nat, imm16: nat ::
      hw < Quarters(sf) && imm16 < 0x1_0000 && Low(MoveWide(opc, sf, hw, imm16), Width(sf)) == v
  }

  /** What a MOVN has to leave clear. */
  function Inverted(v: Word, sf: bool): Word {
    Low(Not(v), Width(sf))
  }

  lemma LowAgain(v: Word, sf: bool)
    ensures Inverted(Inverted(v, sf), sf) == Low(v, Width(sf))
  {
  }

  lemma ZeroBuilds(v: Word, sf: bool, hw: nat)
    requires Low(v, Width(sf)) == v && hw < Quarters(sf) && InQuarter(v, hw)
    ensures Quarter(v, hw) < 0x1_0000 && Low(MoveWide(2, sf, hw, Quarter(v, hw)), Width(sf)) == v
    ensures WideBuilds(2, sf, v)
  {
    QuarterRebuilds(v, hw);
  }

  lemma NotBuilds(v: Word, sf: bool, hw: nat)
    requires Low(v, Width(sf)) == v && hw < Quarters(sf) && InQuarter(Inverted(v, sf), hw)
    ensures var q := Quarter(Inverted(v, sf), hw);
      q < 0x1_0000 && Low(MoveWide(0, sf, hw, q), Width(sf)) == v
    ensures WideBuilds(0, sf, v)
  {
    QuarterRebuilds(Inverted(v, sf), hw);
    LowAgain(v, sf);
    var q := Quarter(Inverted(v, sf), hw);
    assert MoveWide(0, sf, hw, q) == Not(Inverted(v, sf));
  }

  /** Looking at each quarter misses no MOVZ. */
  lemma ZeroSearched(v: Word, sf: bool)
    requires forall hw :: 0 <= hw < Quarters(sf) ==> !InQuarter(v, hw)
    ensures !WideBuilds(2, sf, v)
  {
    if WideBuilds(2, sf, v) {
      var hw: nat, imm16: nat :| hw < Quarters(sf) && imm16 < 0x1_0000 && Low(MoveWide(2, sf, hw, imm16), Width(sf)) == v;
      PlacedInQuarter(imm16, hw);
      assert InQuarter(v, hw);
    }
  }

  /** Looking at each quarter of the complement misses no MOVN. */
  lemma NotSearched(v: Word, sf: bool)
    requires forall hw :: 0 <= hw < Quarters(sf) ==> !InQuarter(Inverted(v, sf), hw)
    ensures !WideBuilds(0, sf, v)
  {
    if WideBuilds(0, sf, v) {
      var hw: nat, imm16: nat :| hw < Quarters(sf) && imm16 < 0x1_0000 && Low(MoveWide(0, sf, hw, imm16), Width(sf)) == v;
      PlacedInQuarter(imm16, hw);
      var placed := Shl(FromNat(imm16), hw * 16);
      forall i | 0 <= i < 64 && Inverted(v, sf)[i]
        ensures placed[i]
      {
      }
      assert InQuarter(Inverted(v, sf), hw);
    }
  }

  // ----------------------------------------------------------- running a word

  lemma WideExecutes(opc: nat, sf: bool, hw: nat, imm16: nat, rd: nat, m: Machine, v: Word)
    requires m.Valid() && (opc == 0 || opc == 2) && hw < Quarters(sf) && imm16 < 0x1_0000 && rd < 32
    requires Low(MoveWide(opc, sf, hw, imm16), Width(sf)) == v
    ensures Execute(PackMoveWide(sf, opc, hw, imm16, rd), m) == Some(WriteX(m, rd, sf, v))
  {
    UnpackMoveWide(sf, opc, hw, imm16, rd);
    assert Low(v, Width(sf)) == v;
  }

  lemma OrrExecutes(sf: bool, f: Fields, rd: nat, m: Machine, v: Word)
    requires m.Valid() && Allocated(f, sf) && Decode(f, sf) == v && rd < 32
    ensures Execute(PackOrrImmediate(sf, f, rd), m) == Some(WriteXOrSp(m, rd, sf, v))
  {
    UnpackOrr(sf, f, rd);
    assert Or(Zero(), v) == v;
  }

  // ------------------------------------------------------------------ the move

  /** What an accepted move does to any machine: a move-wide discards a write to
      register 31, a logical immediate sends it to the stack pointer. */
  ghost predicate Moves(e: Encoding, sf: bool, rd: Reg, v: Word)
    requires ValidReg(rd)
  {
    e.Emit? && e.word < 0x1_0000_0000 &&
    forall m: Machine :: m.Valid() ==>
      Execute(e.word, m) == Some(
        if WideBuilds(2, sf, v) || WideBuilds(0, sf, v) then WriteX(m, Num(rd), sf, v)
        else WriteXOrSp(m, Num(rd), sf, v))
  }

  lemma WideMoves(opc: nat, sf: bool, hw: nat, imm16: nat, rd: Reg, v: Word)
    requires ValidReg(rd) && (opc == 0 || opc == 2) && hw < Quarters(sf) && imm16 < 0x1_0000
    requires Low(MoveWide(opc, sf, hw, imm16), Width(sf)) == v
    ensures Moves(Emit(PackMoveWide(sf, opc, hw, imm16, Num(rd))), sf, rd, v)
  {
    assert WideBuilds(opc, sf, v);
    UnpackMoveWide(sf, opc, hw, imm16, Num(rd));
    forall m: Machine | m.Valid()
      ensures Execute(PackMoveWide(sf, opc, hw, imm16, Num(rd)), m) == Some(WriteX(m, Num(rd), sf, v))
    {
      WideExecutes(opc, sf, hw, imm16, Num(rd), m, v);
    }
  }

  lemma OrrMoves(sf: bool, f: Fields, rd: Reg, v: Word)
    requires ValidReg(rd) && Allocated(f, sf) && Decode(f, sf) == v
    requires !WideBuilds(2, sf, v) && !WideBuilds(0, sf, v)
    ensures Moves(Emit(PackOrrImmediate(sf, f, Num(rd))), sf, rd, v)
  {
    UnpackOrr(sf, f, Num(rd));
    forall m: Machine | m.Valid()
      ensures Execute(PackOrrImmediate(sf, f, Num(rd)), m) == Some(WriteXOrSp(m, Num(rd), sf, v))
    {
      OrrExecutes(sf, f, Num(rd), m, v);
    }
  }

  /** The value a move asks for: a 32-bit register takes the low half. */
  function Wanted(value: Word, sf: bool): Word {
    Low(value, Width(sf))
  }

  /** Choose one instruction for the value. It is refused exactly when no MOVZ,
      no MOVN and no logical immediate gives that value. */
  method MoveImmediate(rd: Reg, sf: bool, value: Word) returns (e: Encoding)
    requires ValidReg(rd)
    ensures e == Refused || Moves(e, sf, rd, Wanted(value, sf))
    ensures e == Refused <==>
      !WideBuilds(2, sf, Wanted(value, sf)) && !WideBuilds(0, sf, Wanted(value, sf)) && NoFields(Wanted(value, sf), sf)
  {
    var v := Wanted(value, sf);
    assert Low(v, Width(sf)) == v;
    var hw: nat := 0;
    while hw < Quarters(sf)
      invariant hw <= Quarters(sf)
      invariant forall k :: 0 <= k < hw ==> !InQuarter(v, k)
    {
      OutsideIff(v, hw);
      if OutsideQuarter(v, hw) == Zero() {
        ZeroBuilds(v, sf, hw);
        WideMoves(2, sf, hw, Quarter(v, hw), rd, v);
        return Emit(PackMoveWide(sf, 2, hw, Quarter(v, hw), Num(rd)));
      }
      hw := hw + 1;
    }
    ZeroSearched(v, sf);
    var inv := Inverted(v, sf);
    hw := 0;
    while hw < Quarters(sf)
      invariant hw <= Quarters(sf)
      invariant forall k :: 0 <= k < hw ==> !InQuarter(inv, k)
    {
      OutsideIff(inv, hw);
      if OutsideQuarter(inv, hw) == Zero() {
        if !(Quarter(inv, hw) == 0 && hw != 0) {
          NotBuilds(v, sf, hw);
          WideMoves(0, sf, hw, Quarter(inv, hw), rd, v);
          return Emit(PackMoveWide(sf, 0, hw, Quarter(inv, hw), Num(rd)));
        }
        EmptyQuarter(inv, hw);
      }
      hw := hw + 1;
    }
    NotSearched(v, sf);
    var f := EncodeBitmask(v, sf);
    if f.Some? {
      OrrMoves(sf, f.value, rd, v);
      return Emit(PackOrrImmediate(sf, f.value, Num(rd)));
    }
    return Refused;
  }

  /** A complement with nothing left in it would have been taken at quarter zero. */
  lemma EmptyQuarter(v: Word, hw: nat)
    requires InQuarter(v, hw) && hw < 4 && Quarter(v, hw) == 0
    ensures InQuarter(v, 0)
  {
    QuarterRebuilds(v, hw);
    forall i | 0 <= i < 64
      ensures !v[i]
    {
      if i >= hw * 16 {
        ZeroBits(i - hw * 16);
      }
    }
  }

  /** An accepted move to a general register writes exactly the value asked for
      and changes nothing else. */
  lemma MoveWritesValue(e: Encoding, sf: bool, n: nat, value: Word, m: Machine)
    requires n <= 30 && m.Valid() && Moves(e, sf, Gpr(n), Wanted(value, sf))
    ensures Execute(e.word, m) == Some(m.(x := m.x[n := Wanted(value, sf)]))
  {
    assert Low(Wanted(value, sf), Width(sf)) == Wanted(value, sf);
  }

  /** Register 31 is right for the zero register exactly when a move-wide gives
      the value, and for the stack pointer exactly when none does. */
  lemma Register31Iff(e: Encoding, sf: bool, rd: Reg, value: Word)
    requires !rd.Gpr? && Moves(e, sf, rd, Wanted(value, sf))
    ensures (forall m: Machine :: m.Valid() ==>
        Execute(e.word, m) == Some(if rd.Zr? then m else m.(sp := Wanted(value, sf))))
      <==> (rd.Zr? <==> WideBuilds(2, sf, Wanted(value, sf)) || WideBuilds(0, sf, Wanted(value, sf)))
  {
    var v := Wanted(value, sf);
    assert Low(v, Width(sf)) == v;
    var other := Not(v);
    assert other[0] != v[0];
    var m := Machine(seq(31, i => Zero()), other);
    assert m.Valid() && m.(sp := v) != m;
  }
}
