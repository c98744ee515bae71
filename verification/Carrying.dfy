/** Which bounds may be carried from a value to what a copy, a widening or a
    truncation makes of it (crates/e5r-api/src/dataflow.rs). */
module Carrying {
  import opened Ordered
  import opened Arith
  import opened Ssa
  import opened Constraints
  import opened Guard

  // ------------------------------------------------------------- what a step makes

  /** How far a signed number of this many bits reaches from zero. */
  function HalfOf(n: nat): int
    requires n > 0
  {
    Pow2(n - 1)
  }

  function Half(size: nat): int
    requires size > 0
  {
    HalfOf(Bits(size))
  }

  /** What reading an operand signed says about its bits. */
  lemma SignedBits(env: Env, o: Operand)
    requires o.Size() > 0
    ensures var v, b := ReadSigned(env, o), Bits(o.Size());
      Read(env, o) == (if v >= 0 then v else v + Pow2(b)) && -Half(o.Size()) <= v < Half(o.Size())
  {
    ReadMasked(env, o);
    PowHalf(Bits(o.Size()));
  }

  lemma PowHalf(b: nat)
    requires b > 0
    ensures Pow2(b) == 2 * Pow2(b - 1)
  {
  }

  lemma Pow2Is64()
    ensures Pow2(64) == TWO_TO_64
  {
    Pow2Is63();
  }

  /** The low bits of a number, read signed. */
  function LowBits(v: int, bits: nat): int
    requires bits > 0
  {
    if v % Pow2(bits) < Pow2(bits - 1) then v % Pow2(bits) else v % Pow2(bits) - Pow2(bits)
  }

  /** What a carrying step makes of a number of `n` bits at a place of `m`. */
  function StepNumber(op: Op, n: nat, m: nat, v: int): int
    requires m > 0
  {
    match op
    case IntZExt => if v >= 0 || n == m then v else v + Pow2(n)
    case SubPiece => LowBits(v, m)
    case _ => v
  }

  predicate InWidth(v: int, n: nat)
    requires n > 0
  {
    -HalfOf(n) <= v < HalfOf(n)
  }

  /** A number's low bits are the number, once it fits. */
  lemma LowBitsFit(v: int, m: nat)
    requires m > 0 && InWidth(v, m)
    ensures LowBits(v, m) == v
  {
    PowHalf(m);
    ModOf(v, if v >= 0 then 0 else -1, if v >= 0 then v else v + Pow2(m), Pow2(m));
  }

  lemma LowBitsIn(v: int, m: nat)
    requires m > 0
    ensures InWidth(LowBits(v, m), m)
  {
    PowHalf(m);
  }

  /** Whole turns of `m` bits change nothing in the low `m`. */
  lemma LowBitsTurn(v: int, n: nat, m: nat)
    requires 0 < m <= n
    ensures LowBits(v + Pow2(n), m) == LowBits(v, m)
  {
    Pow2Add(n - m, m);
    assert n - m + m == n;
    ModTurn(v, Pow2(n - m), Pow2(m));
  }

  lemma SignedIsLow(raw: nat, size: nat)
    requires size > 0
    ensures Signed(raw, size) == LowBits(raw, Bits(size))
  {
  }

  /** What a carrying operation makes of its input, read signed. */
  lemma StepMakes(op: SsaOp, env: Env)
    requires Carries(op) && op.out.Some? && WellTyped(op) && Holds(op, env)
    ensures ReadSigned(env, Val(op.out.value)) ==
      StepNumber(op.kind.op, Bits(op.inputs[0].Size()), Bits(op.out.value.location.size), ReadSigned(env, op.inputs[0]))
  {
    var x, size := op.inputs[0], op.out.value.location.size;
    var raw := Result(op.kind.op, op.inputs, env);
    SignedBits(env, x);
    MaskedTwice(raw, size);
    SignedIsLow(raw, size);
    ResultMakes(op, env);
  }

  lemma ResultMakes(op: SsaOp, env: Env)
    requires Carries(op) && op.out.Some? && WellTyped(op)
    ensures var n, m, v := Bits(op.inputs[0].Size()), Bits(op.out.value.location.size), ReadSigned(env, op.inputs[0]);
      LowBits(Result(op.kind.op, op.inputs, env), m) == StepNumber(op.kind.op, n, m, v)
  {
    var n, m, v := Bits(op.inputs[0].Size()), Bits(op.out.value.location.size), ReadSigned(env, op.inputs[0]);
    SignedBits(env, op.inputs[0]);
    match op.kind.op
    case Copy => ZExtMakes(v, n, n);
    case IntZExt => ZExtMakes(v, n, m);
    case IntSExt => SExtMakes(v, n, m);
    case SubPiece =>
      ModSmall(0, Pow2(Bits(op.inputs[1].Size())));
      if v < 0 {
        LowBitsTurn(v, n, m);
      }
  }

  lemma ZExtMakes(v: int, n: nat, m: nat)
    requires 0 < n <= m && InWidth(v, n)
    ensures LowBits(if v >= 0 then v else v + Pow2(n), m) == StepNumber(IntZExt, n, m, v)
  {
    if n == m {
      LowBitsFit(v, m);
      if v < 0 {
        LowBitsTurn(v, n, m);
      }
    } else {
      RawFits(v, n, m);
      LowBitsFit(if v >= 0 then v else v + Pow2(n), m);
    }
  }

  lemma RawFits(v: int, n: nat, m: nat)
    requires 0 < n < m && InWidth(v, n)
    ensures InWidth(if v >= 0 then v else v + Pow2(n), m)
  {
    PowHalf(n);
    Pow2Grows(n, m - 1);
  }

  lemma SExtMakes(v: int, n: nat, m: nat)
    requires 0 < n <= m <= 64 && InWidth(v, n)
    ensures LowBits(if v >= 0 then v else v + TWO_TO_64, m) == v
  {
    var word: nat := 64;
    Pow2Is64();
    Pow2Grows(n - 1, m - 1);
    LowBitsFit(v, m);
    if v < 0 {
      LowBitsTurn(v, word, m);
    }
  }

  /** A zero extension to a wider location keeps exactly the values that are not
      negative. */
  lemma ZeroExtensionExact(op: SsaOp, env: Env)
    requires op.kind == Do(IntZExt) && op.out.Some? && |op.inputs| > 0 && WellTyped(op) && Holds(op, env)
    requires Bits(op.inputs[0].Size()) < Bits(op.out.value.location.size)
    ensures ReadSigned(env, Val(op.out.value)) == ReadSigned(env, op.inputs[0]) <==> ReadSigned(env, op.inputs[0]) >= 0
  {
    StepMakes(op, env);
  }

  // ------------------------------------------------------------- which ranges survive

  /** Every number of `n` bits in the range stays in it. */
  ghost predicate StepSound(op: Op, n: nat, m: nat, range: Range)
    requires n > 0 && m > 0
  {
    forall v: int :: InWidth(v, n) && range.Contains(v) ==> range.Contains(StepNumber(op, n, m, v))
  }

  /** The part of a range a number of `n` bits can be in. */
  function Clipped(range: Range, n: nat): Range
    requires n > 0
  {
    range.Meet(Range(-HalfOf(n), HalfOf(n) - 1))
  }

  /** What a caller can check of a range before it is carried. A zero extension to
      a wider place turns negative numbers into the largest ones; a truncation to
      `m` bits wraps whatever does not fit. */
  predicate StepOk(op: Op, n: nat, m: nat, range: Range)
    requires n > 0 && m > 0
  {
    var clip := Clipped(range, n);
    match op
    case IntZExt => n == m || clip.low > clip.high || clip.low >= 0 || range.high >= Pow2(n) - 1
    case SubPiece =>
      clip.low > clip.high || (InWidth(clip.low, m) && InWidth(clip.high, m)) ||
      (range.low <= -HalfOf(m) && range.high >= HalfOf(m) - 1)
    case _ => true
  }

  /** Carrying a range through one step is right for every value if and only if
      the range passes that check. */
  lemma StepSoundIff(op: Op, n: nat, m: nat, range: Range)
    requires 0 < n && 0 < m && (op.IntZExt? ==> n <= m) && (op.SubPiece? ==> m <= n)
    ensures StepSound(op, n, m, range) <==> StepOk(op, n, m, range)
  {
    match op
    case IntZExt => ZExtSoundIff(n, m, range);
    case SubPiece => SubPieceSoundIff(n, m, range);
    case _ =>
  }

  lemma ClipIff(range: Range, n: nat, v: int)
    requires n > 0
    ensures Clipped(range, n).Contains(v) <==> InWidth(v, n) && range.Contains(v)
  {
  }

  lemma ZExtSoundIff(n: nat, m: nat, range: Range)
    requires 0 < n <= m
    ensures StepSound(IntZExt, n, m, range) <==> StepOk(IntZExt, n, m, range)
  {
    PowHalf(n);
    var clip := Clipped(range, n);
    if StepSound(IntZExt, n, m, range) && n < m && clip.low <= clip.high && clip.low < 0 {
      var v := if clip.high < 0 then clip.high else -1;
      ClipIff(range, n, v);
      assert StepNumber(IntZExt, n, m, v) == v + Pow2(n);
      assert range.Contains(v + Pow2(n));
    }
    if StepOk(IntZExt, n, m, range) {
      forall v: int | InWidth(v, n) && range.Contains(v) ensures range.Contains(StepNumber(IntZExt, n, m, v)) {
        ClipIff(range, n, v);
      }
    }
  }

  lemma SubPieceSoundIff(n: nat, m: nat, range: Range)
    requires 0 < m <= n
    ensures StepSound(SubPiece, n, m, range) <==> StepOk(SubPiece, n, m, range)
  {
    if StepOk(SubPiece, n, m, range) {
      forall v: int | InWidth(v, n) && range.Contains(v) ensures range.Contains(LowBits(v, m)) {
        ClipIff(range, n, v);
        LowBitsIn(v, m);
        if InWidth(v, m) {
          LowBitsFit(v, m);
        }
      }
    } else {
      var v := Spoiled(n, m, range);
      assert !range.Contains(StepNumber(SubPiece, n, m, v));
    }
  }

  /** A number in the range whose low bits are not. */
  lemma Spoiled(n: nat, m: nat, range: Range) returns (v: int)
    requires 0 < m <= n && !StepOk(SubPiece, n, m, range)
    ensures InWidth(v, n) && range.Contains(v) && !range.Contains(LowBits(v, m))
  {
    var clip, half := Clipped(range, n), Pow2(m - 1);
    PowHalf(m);
    Pow2Grows(m - 1, n - 1);
    if clip.high >= half {
      v := if clip.low <= half then half else clip.low;
      if v == half {
        ModOf(half, 0, half, Pow2(m));
      }
    } else {
      v := if clip.high >= -half - 1 then -half - 1 else clip.high;
      if v == -half - 1 {
        ModOf(v, -1, half - 1, Pow2(m));
      }
    }
    ClipIff(range, n, v);
    LowBitsIn(v, m);
  }

  // ------------------------------------------------------------- one step, every valuation

  /** The check for one operation. */
  predicate StepPasses(op: SsaOp, range: Range)
    requires op.kind.Do? && op.out.Some? && op.inputs != [] && op.inputs[0].Size() > 0 && op.out.value.location.size > 0
  {
    StepOk(op.kind.op, Bits(op.inputs[0].Size()), Bits(op.out.value.location.size), range)
  }

  lemma StepCarries(op: SsaOp, range: Range, env: Env)
    requires Carries(op) && op.out.Some? && WellTyped(op) && Holds(op, env) && StepPasses(op, range)
    requires range.Contains(ReadSigned(env, op.inputs[0]))
    ensures range.Contains(ReadSigned(env, Val(op.out.value)))
  {
    var n, m := Bits(op.inputs[0].Size()), Bits(op.out.value.location.size);
    StepMakes(op, env);
    SignedBits(env, op.inputs[0]);
    WidthsFit(op);
    StepSoundIff(op.kind.op, n, m, range);
  }

  lemma WidthsFit(op: SsaOp)
    requires Carries(op) && op.out.Some? && WellTyped(op)
    ensures var n, m := Bits(op.inputs[0].Size()), Bits(op.out.value.location.size);
      (op.kind.op.IntZExt? ==> n <= m) && (op.kind.op.SubPiece? ==> m <= n)
  {
  }

  /** The bound holds of what goes in and not of what comes out. */
  ghost predicate Escapes(op: SsaOp, range: Range, env: Env) {
    op.inputs != [] && op.out.Some? && Holds(op, env) &&
    range.Contains(ReadSigned(env, op.inputs[0])) && !range.Contains(ReadSigned(env, Val(op.out.value)))
  }

  /** A step on anything but a constant keeps a bound for every valuation if and
      only if the range passes the check. */
  lemma StepExact(op: SsaOp, range: Range)
    requires Carries(op) && op.out.Some? && WellTyped(op) && !op.inputs[0].Const? && op.inputs[0] != Val(op.out.value)
    ensures StepPasses(op, range) <==> forall env :: !Escapes(op, range, env)
  {
    if StepPasses(op, range) {
      forall env ensures !Escapes(op, range, env) {
        if Holds(op, env) && range.Contains(ReadSigned(env, op.inputs[0])) {
          StepCarries(op, range, env);
        }
      }
    } else {
      var n, m := Bits(op.inputs[0].Size()), Bits(op.out.value.location.size);
      WidthsFit(op);
      StepSoundIff(op.kind.op, n, m, range);
      var v: int :| InWidth(v, n) && range.Contains(v) && !range.Contains(StepNumber(op.kind.op, n, m, v));
      var env := Realised(op, v);
      StepMakes(op, env);
      assert Escapes(op, range, env);
    }
  }

  /** Any number of its width can be what the input holds. */
  lemma Realised(op: SsaOp, v: int) returns (env: Env)
    requires Carries(op) && op.out.Some? && WellTyped(op) && !op.inputs[0].Const? && op.inputs[0] != Val(op.out.value)
    requires InWidth(v, Bits(op.inputs[0].Size()))
    ensures Holds(op, env) && ReadSigned(env, op.inputs[0]) == v
  {
    var x := op.inputs[0];
    var n, out := Bits(x.Size()), op.out.value;
    PowHalf(n);
    var raw: nat := if v >= 0 then v else v + Pow2(n);
    ModSmall(raw, Pow2(n));
    var before := Env(w => raw, l => raw);
    var made := Result(op.kind.op, op.inputs, before);
    env := Env(w => if w == out then made else raw, l => raw);
    assert Read(env, x) == Read(before, x) == raw;
    SecondReads(op, before, env);
    MaskedTwice(made, out.location.size);
  }

  lemma SecondReads(op: SsaOp, was: Env, now: Env)
    requires Carries(op) && Read(was, op.inputs[0]) == Read(now, op.inputs[0])
    ensures Result(op.kind.op, op.inputs, was) == Result(op.kind.op, op.inputs, now)
  {
  }

  // ------------------------------------------------------------- where a bound is lost

  /** The signed guard `x <= 5`. */
  function UpToFive(): Range {
    Range(I64_MIN, 5)
  }

  /** Taking the low half of an eight-byte value at most five can give a hundred. */
  lemma TruncationRaises()
    ensures var v := 0x8000_0000_0000_0064 - TWO_TO_64;
      UpToFive().Contains(v) && StepNumber(SubPiece, 64, 32, v) == 100 && !StepSound(SubPiece, 64, 32, UpToFive())
  {
    var v := 0x8000_0000_0000_0064 - TWO_TO_64;
    var m, n: nat := 32, 64;
    Widths();
    ModOf(v, -0x8000_0000, 100, Pow2(m));
    assert InWidth(v, n) && StepNumber(SubPiece, n, m, v) == 100;
  }

  /** Zero-extending a four-byte value at most five can give nearly 2^32. */
  lemma WideningRaises()
    ensures UpToFive().Contains(-1) && StepNumber(IntZExt, 32, 64, -1) == 0xffff_ffff
    ensures !StepSound(IntZExt, 32, 64, UpToFive())
  {
    var m, n: nat := 64, 32;
    Widths();
    assert InWidth(-1, n) && StepNumber(IntZExt, n, m, -1) == 0xffff_ffff;
  }

  lemma Widths()
    ensures Pow2(31) == 0x8000_0000 && Pow2(32) == 0x1_0000_0000 && Pow2(63) == 0x8000_0000_0000_0000
  {
    Pow2Is63();
    assert Pow2(16) == 0x1_0000;
    Pow2Add(16, 16);
    assert Pow2(15) == 0x8000;
    Pow2Add(16, 15);
  }

  /** The low four bytes of eight. */
  function Cut(x: Operand): SsaOp {
    SsaOp(Do(SubPiece), Some(Value(Location(1, 0, 4), 0)), [x, Const(0, 8)])
  }

  /** The bound is drawn from a signed comparison that holds, and what it is
      carried to is out of it. */
  lemma TruncationMisleads(x: Operand)
    requires x == Undefined(Location(0, 0, 8))
    ensures Ordering(IntSLessEqual, x, Const(5, 8), true) == Only(x, UpToFive())
    ensures exists env :: Result(IntSLessEqual, [x, Const(5, 8)], env) != 0 && Escapes(Cut(x), UpToFive(), env)
  {
    FiveReads();
    CutWidths(x);
    StepExact(Cut(x), UpToFive());
    var env :| Escapes(Cut(x), UpToFive(), env);
    ComparesTrue(x, env);
  }

  lemma ComparesTrue(x: Operand, env: Env)
    requires ReadSigned(env, x) <= 5
    ensures Result(IntSLessEqual, [x, Const(5, 8)], env) != 0
  {
    FiveReads();
    ConstReads(env, Const(5, 8));
  }

  lemma CutWidths(x: Operand)
    requires x == Undefined(Location(0, 0, 8))
    ensures WellTyped(Cut(x)) && Carries(Cut(x)) && !StepPasses(Cut(x), UpToFive())
  {
    TruncationRaises();
    StepSoundIff(SubPiece, 64, 32, UpToFive());
  }

  lemma FiveReads()
    ensures Signed(5, 8) == 5
  {
    var n: nat := Bits(8);
    Pow2Grows(3, n - 1);
    PowHalf(n);
    ModSmall(5, Pow2(n));
  }

  // ------------------------------------------------------------- down the whole chain

  /** Every step from the operand down to the value a bound is about keeps every
      value the bound allows inside it. */
  ghost predicate Passes(defs: Defs, operand: Operand, atom: Operand, range: Range, depth: nat)
    decreases MAX_DEPTH + 1 - depth
  {
    operand == atom ||
    (depth <= MAX_DEPTH && DefOp(defs, operand).Some? &&
     var op := DefOp(defs, operand).value;
     Carries(op) && op.out.Some? && WellTyped(op) && StepPasses(op, range) && Passes(defs, op.inputs[0], atom, range, depth + 1))
  }

  /** Every definition on the way down holds. */
  ghost predicate ChainHolds(defs: Defs, operand: Operand, env: Env, depth: nat)
    decreases MAX_DEPTH + 1 - depth
  {
    depth <= MAX_DEPTH && DefOp(defs, operand).Some? && Carries(DefOp(defs, operand).value) ==>
      Holds(DefOp(defs, operand).value, env) && ChainHolds(defs, DefOp(defs, operand).value.inputs[0], env, depth + 1)
  }

  /** A bound on a carrier is a bound on the operand. */
  lemma {:induction false} CarrySound(defs: Defs, operand: Operand, atom: Operand, range: Range, env: Env, depth: nat)
    requires TypedDefs(defs) && Passes(defs, operand, atom, range, depth) && ChainHolds(defs, operand, env, depth)
    requires range.Contains(ReadSigned(env, atom))
    ensures range.Contains(ReadSigned(env, operand))
    decreases MAX_DEPTH + 1 - depth
  {
    if operand != atom {
      var op := DefOp(defs, operand).value;
      CarrySound(defs, op.inputs[0], atom, range, env, depth + 1);
      assert op.out == Some(operand.value);
      StepCarries(op, range, env);
    }
  }

  /** From the operand down, only copies and sign extensions. */
  ghost predicate OnlyCopies(defs: Defs, operand: Operand, depth: nat)
    decreases MAX_DEPTH + 1 - depth
  {
    depth <= MAX_DEPTH && DefOp(defs, operand).Some? && Carries(DefOp(defs, operand).value) ==>
      var op := DefOp(defs, operand).value;
      op.out.Some? && (op.kind.op.Copy? || op.kind.op.IntSExt?) && OnlyCopies(defs, op.inputs[0], depth + 1)
  }

  /** Through copies and sign extensions every bound on a carrier passes. */
  lemma {:induction false} CopiesPass(defs: Defs, operand: Operand, seen: set<Operand>, depth: nat, atom: Operand, range: Range)
    requires TypedDefs(defs) && OnlyCopies(defs, operand, depth) && atom in Carriers(defs, operand, seen, depth) && atom !in seen
    ensures Passes(defs, operand, atom, range, depth)
    decreases MAX_DEPTH + 1 - depth
  {
    if atom != operand {
      CopiesPass(defs, DefOp(defs, operand).value.inputs[0], seen + {operand}, depth + 1, atom, range);
    }
  }
}
