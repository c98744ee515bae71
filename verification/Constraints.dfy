/** What a branch condition says about the values in it, given which way it
    went (crates/e5r-api/src/dataflow.rs). */
module Constraints {
  import opened Ordered
  import opened Ssa
  import opened Arith

  const MAX_DEPTH: nat := 64
  const I64_MIN: int := -0x8000_0000_0000_0000
  const TWO_TO_64: int := 0x1_0000_0000_0000_0000
  const I64_MAX: int := 0x7fff_ffff_ffff_ffff

  // ----------------------------------------------------------------- values

  /** The bits an operand of this many bytes is read at. */
  function Bits(size: nat): (b: nat)
    ensures b <= 64 && (size > 0 ==> b > 0)
  {
    if size * 8 < 64 then size * 8 else 64
  }

  /** Only the bits of a value's own width count. */
  function Masked(raw: nat, size: nat): (v: nat)
    ensures v < Pow2(Bits(size))
  {
    raw % Pow2(Bits(size))
  }

  /** The bits of a value read as a signed number of its own width. No operand
      is zero bytes wide. */
  function Signed(raw: nat, size: nat): (v: int)
    ensures size > 0 && Masked(raw, size) < Pow2(Bits(size) - 1) ==> v == Masked(raw, size)
    ensures size > 0 && Masked(raw, size) >= Pow2(Bits(size) - 1) ==> v < 0
    ensures I64_MIN <= v <= I64_MAX
  {
    if size == 0 then 0 else
    var m := Masked(raw, size);
    Pow2Bounds(Bits(size) - 1);
    if m < Pow2(Bits(size) - 1) then m else m - Pow2(Bits(size))
  }

  lemma {:induction false} Pow2Bounds(n: nat)
    requires n <= 63
    ensures Pow2(n) <= 0x8000_0000_0000_0000
    ensures Pow2(n + 1) == 2 * Pow2(n)
  {
    Pow2Grows(n, 63);
    Pow2Is63();
  }

  lemma {:induction false} Pow2Grows(m: nat, n: nat)
    requires m <= n
    ensures Pow2(m) <= Pow2(n)
    decreases n - m
  {
    if m < n {
      Pow2Grows(m + 1, n);
    }
  }

  lemma Pow2Is63()
    ensures Pow2(63) == 0x8000_0000_0000_0000
  {
    assert Pow2(16) == 0x1_0000;
    Pow2Add(16, 16);
    Pow2Add(32, 16);
    assert Pow2(15) == 0x8000;
    Pow2Add(48, 15);
  }

  lemma {:induction false} Pow2Add(a: nat, b: nat)
    ensures Pow2(a + b) == Pow2(a) * Pow2(b)
  {
    if a > 0 {
      Pow2Add(a - 1, b);
    }
  }

  // ------------------------------------------------------------- the answer

  datatype Range = Range(low: int, high: int) {
    predicate Contains(v: int) {
      match this
      case Range(low, high) => low <= v <= high
    }

    /** The smallest interval containing both. */
    function Join(other: Range): Range {
      Range(if low < other.low then low else other.low, if high > other.high then high else other.high)
    }

    /** What both allow. */
    function Meet(other: Range): Range {
      Range(if low > other.low then low else other.low, if high < other.high then high else other.high)
    }
  }

  type Defs = map<Value, SsaOp>
  type Facts = map<Operand, Range>

  /** The operation that defined a value, when an ordinary one did. */
  function DefOp(defs: Defs, o: Operand): Option<SsaOp> {
    if o.Val? && o.value in defs && defs[o.value].kind.Do? then Some(defs[o.value]) else None
  }

  /** The value and the constant of a comparison, when exactly one side is a constant. */
  function Compared(a: Operand, b: Operand): Option<(Operand, int)>
  {
    if b.Const? && !a.Const? then Some((a, Signed(b.bits, b.width)))
    else if a.Const? && !b.Const? then Some((b, Signed(a.bits, a.width)))
    else None
  }

  /** Sizes are positive, comparisons compare like widths, copies keep the
      width, extensions do not narrow, and extractions do not widen. */
  ghost predicate WellTyped(op: SsaOp) {
    (op.kind.Do? && op.out.Some? && |op.inputs| > 0 ==>
      (op.kind.op.IntZExt? || op.kind.op.IntSExt? ==> op.inputs[0].Size() <= op.out.value.location.size) &&
      (op.kind.op.SubPiece? ==> op.out.value.location.size <= op.inputs[0].Size())) &&
    (forall i :: 0 <= i < |op.inputs| ==> op.inputs[i].Size() > 0) &&
    (op.out.Some? ==> op.out.value.location.size > 0) &&
    (op.kind.Do? && (op.kind.op.Copy? || IsCompare(op.kind.op)) ==>
      forall i :: 0 <= i < |op.inputs| ==>
        op.inputs[i].Size() == if op.kind.op.Copy? && op.out.Some? then op.out.value.location.size else op.inputs[0].Size())
  }

  predicate IsCompare(op: Op) {
    op.IntEqual? || op.IntNotEqual? || op.IntLess? || op.IntLessEqual? || op.IntSLess? || op.IntSLessEqual?
  }

  ghost predicate TypedDefs(defs: Defs) {
    forall v :: v in defs ==> WellTyped(defs[v]) && defs[v].out == Some(v)
  }

  function Only(o: Operand, r: Range): Facts {
    map[o := r]
  }

  /** What one ordering comparison says. `x < k` holding, or `k < x` failing,
      is an upper bound on the side that is not the constant. */
  function Ordering(op: Op, a: Operand, b: Operand, taken: bool): Facts
  {
    var signed := op.IntSLess? || op.IntSLessEqual?;
    var orEqual := op.IntLessEqual? || op.IntSLessEqual?;
    var floor := if signed then I64_MIN else 0;
    if !a.Const? && b.Const? then
      var k := Signed(b.bits, b.width);
      if taken && (orEqual || k > I64_MIN) then Only(a, Range(floor, if orEqual then k else k - 1)) else map[]
    else if a.Const? && !b.Const? then
      var k := Signed(a.bits, a.width);
      if !taken && (!orEqual || k > I64_MIN) then Only(b, Range(floor, if orEqual then k - 1 else k)) else map[]
    else map[]
  }

  function Equality(op: Op, a: Operand, b: Operand, taken: bool): Facts
  {
    if taken == op.IntEqual? then
      match Compared(a, b)
      case Some((o, k)) => Only(o, Range(k, k))
      case None => map[]
    else map[]
  }

  /** Both conditions hold: every fact applies, twice where both give one. */
  function Both(left: Facts, right: Facts): Facts {
    map o | o in left.Keys + right.Keys ::
      if o in left && o in right then left[o].Meet(right[o]) else if o in left then left[o] else right[o]
  }

  /** One of them holds and nothing says which: only what both bound is
      bounded, by the wider of the two. */
  function Either(left: Facts, right: Facts): Facts {
    map o | o in left && o in right :: left[o].Join(right[o])
  }

  /** Both sides of a junction hold, or one of them does and nothing says which. */
  function Junction(op: Op, taken: bool, left: Facts, right: Facts): Facts {
    if op.BoolAnd? == taken then Both(left, right) else Either(left, right)
  }

  function Comparison(op: Op, a: Operand, b: Operand, taken: bool): Facts
  {
    if op.IntEqual? || op.IntNotEqual? then Equality(op, a, b, taken) else Ordering(op, a, b, taken)
  }

  predicate IsJunction(op: Op) {
    op.BoolAnd? || op.BoolOr?
  }

  function Derive(defs: Defs, cond: Operand, taken: bool, depth: nat): Facts
    decreases MAX_DEPTH + 1 - depth
  {
    if depth > MAX_DEPTH || DefOp(defs, cond).None? then map[] else
    var SsaOp(Do(op), _, inputs) := DefOp(defs, cond).value;
    if |inputs| == 0 then map[]
    else if op.Copy? then Derive(defs, inputs[0], taken, depth + 1)
    else if op.BoolNot? then Derive(defs, inputs[0], !taken, depth + 1)
    else if |inputs| == 1 then map[]
    else if IsJunction(op) then
      Junction(op, taken, Derive(defs, inputs[0], taken, depth + 1), Derive(defs, inputs[1], taken, depth + 1))
    else if IsCompare(op) then Comparison(op, inputs[0], inputs[1], taken)
    else map[]
  }

  // ------------------------------------------------------------ the meaning

  /** What every value holds at one moment, and what arrived from outside. */
  datatype Env = Env(values: Value -> nat, incoming: Location -> nat)

  /** The bits an operand reads as. */
  function Read(env: Env, o: Operand): nat {
    match o
    case Val(v) => Masked(env.values(v), v.location.size)
    case Const(bits, w) => Masked(bits, w)
    case Undefined(l) => Masked(env.incoming(l), l.size)
  }

  function ReadSigned(env: Env, o: Operand): int
  {
    Signed(Read(env, o), o.Size())
  }

  function ShiftRight(x: nat, n: nat): nat
    decreases n
  {
    if n == 0 then x else ShiftRight(x / 2, n - 1)
  }

  function Bool(b: bool): nat {
    if b then 1 else 0
  }

  /** What the interpreter computes for the operations a condition is made of. */
  function Result(op: Op, inputs: seq<Operand>, env: Env): nat
    requires |inputs| > 0
  {
    var x, xs := Read(env, inputs[0]), ReadSigned(env, inputs[0]);
    var y := if |inputs| > 1 then Read(env, inputs[1]) else 0;
    var ys := if |inputs| > 1 then ReadSigned(env, inputs[1]) else 0;
    match op
    case BoolNot => Bool(x == 0)
    case BoolAnd => Bool(x != 0 && y != 0)
    case BoolOr => Bool(x != 0 || y != 0)
    case IntEqual => Bool(x == y)
    case IntNotEqual => Bool(x != y)
    case IntLess => Bool(x < y)
    case IntLessEqual => Bool(x <= y)
    case IntSLess => Bool(xs < ys)
    case IntSLessEqual => Bool(xs <= ys)
    case IntSExt => if xs < 0 then xs + TWO_TO_64 else xs
    case SubPiece => ShiftRight(x, y * 8)
    case _ => x
  }

  predicate Modelled(op: Op) {
    !op.Other? && !op.CBranch?
  }

  /** The value an ordinary operation defines is what the operation computes. */
  ghost predicate Holds(op: SsaOp, env: Env) {
    op.kind.Do? && op.out.Some? && Modelled(op.kind.op) && |op.inputs| > 0 && WellTyped(op) ==>
      Read(env, Val(op.out.value)) == Masked(Result(op.kind.op, op.inputs, env), op.out.value.location.size)
  }

  /** Every definition a condition is built from holds. */
  ghost predicate ConeHolds(defs: Defs, cond: Operand, env: Env, depth: nat)
    decreases MAX_DEPTH + 1 - depth
  {
    depth <= MAX_DEPTH && DefOp(defs, cond).Some? ==>
      var op := DefOp(defs, cond).value;
      Holds(op, env) &&
      (op.kind.op.Copy? || op.kind.op.BoolNot? || op.kind.op.BoolAnd? || op.kind.op.BoolOr? ==>
        forall i :: 0 <= i < |op.inputs| ==> ConeHolds(defs, op.inputs[i], env, depth + 1))
  }

  ghost predicate NonNegative(o: Operand) {
    o.Const? && o.width > 0 ==> Signed(o.bits, o.width) >= 0
  }

  /** No unsigned comparison is against a constant with its own top bit set. */
  ghost predicate UnsignedConstsSmall(defs: Defs) {
    forall v :: v in defs && defs[v].kind.Do? && (defs[v].kind.op.IntLess? || defs[v].kind.op.IntLessEqual?) ==>
      forall i :: 0 <= i < |defs[v].inputs| ==> NonNegative(defs[v].inputs[i])
  }

  /** Every fact is true of the value it is about. */
  ghost predicate AllTrue(facts: Facts, env: Env) {
    forall o :: o in facts ==> o.Size() > 0 && facts[o].Contains(ReadSigned(env, o))
  }

  // -------------------------------------------------------------- soundness

  /** A constant with its top bit clear reads the same signed and unsigned, and
      so does anything no larger than it at the same width. */
  lemma SmallReadsSame(o: Operand, k: Operand, env: Env)
    requires o.Size() == k.Size() > 0 && k.Const? && NonNegative(k) && Read(env, o) <= Read(env, k)
    ensures ReadSigned(env, o) == Read(env, o) && ReadSigned(env, k) == Read(env, k) == Signed(k.bits, k.width)
  {
    MaskedTwice(k.bits, k.width);
    ReadMasked(env, o);
  }

  lemma MaskedTwice(raw: nat, size: nat)
    ensures Masked(Masked(raw, size), size) == Masked(raw, size)
  {
    ModSmall(Masked(raw, size), Pow2(Bits(size)));
  }

  lemma ReadMasked(env: Env, o: Operand)
    ensures Masked(Read(env, o), o.Size()) == Read(env, o)
  {
    ModSmall(Read(env, o), Pow2(Bits(o.Size())));
  }

  /** At one width, two operands read the same signed exactly when their bits agree. */
  lemma SignedInjective(env: Env, a: Operand, b: Operand)
    requires a.Size() == b.Size() > 0
    ensures Read(env, a) == Read(env, b) <==> ReadSigned(env, a) == ReadSigned(env, b)
  {
    ReadMasked(env, a);
    ReadMasked(env, b);
  }

  lemma ConstReads(env: Env, k: Operand)
    requires k.Const? && k.width > 0
    ensures ReadSigned(env, k) == Signed(k.bits, k.width)
  {
    MaskedTwice(k.bits, k.width);
  }

  lemma OrderingSound(op: Op, a: Operand, b: Operand, taken: bool, env: Env)
    requires op.IntLess? || op.IntLessEqual? || op.IntSLess? || op.IntSLessEqual?
    requires a.Size() == b.Size() > 0
    requires op.IntLess? || op.IntLessEqual? ==> NonNegative(a) && NonNegative(b)
    requires (Result(op, [a, b], env) != 0) == taken
    ensures AllTrue(Ordering(op, a, b, taken), env)
  {
    if !a.Const? && b.Const? && taken {
      ConstReads(env, b);
      if op.IntLess? || op.IntLessEqual? {
        SmallReadsSame(a, b, env);
      }
    } else if a.Const? && !b.Const? && !taken {
      ConstReads(env, a);
      if op.IntLess? || op.IntLessEqual? {
        SmallReadsSame(b, a, env);
      }
    }
  }

  lemma EqualitySound(op: Op, a: Operand, b: Operand, taken: bool, env: Env)
    requires op.IntEqual? || op.IntNotEqual?
    requires a.Size() == b.Size() > 0
    requires (Result(op, [a, b], env) != 0) == taken
    ensures AllTrue(Equality(op, a, b, taken), env)
  {
    SignedInjective(env, a, b);
    if a.Const? { ConstReads(env, a); }
    if b.Const? { ConstReads(env, b); }
  }

  lemma BothTrue(left: Facts, right: Facts, env: Env)
    requires AllTrue(left, env) && AllTrue(right, env)
    ensures AllTrue(Both(left, right), env)
  {
  }

  lemma EitherTrue(left: Facts, right: Facts, env: Env)
    requires AllTrue(left, env) || AllTrue(right, env)
    ensures AllTrue(Either(left, right), env)
  {
  }

  /** A boolean result, or a copy at the same width, is non-zero exactly when
      what was computed is. */
  lemma ResultTruth(op: SsaOp, env: Env)
    requires Holds(op, env) && op.kind.Do? && op.out.Some? && |op.inputs| > 0 && WellTyped(op)
    requires IsCompare(op.kind.op) || op.kind.op.Copy? || op.kind.op.BoolNot? || op.kind.op.BoolAnd? || op.kind.op.BoolOr?
    ensures (Read(env, Val(op.out.value)) != 0) == (Result(op.kind.op, op.inputs, env) != 0)
  {
    var size, r := op.out.value.location.size, Result(op.kind.op, op.inputs, env);
    assert Pow2(Bits(size)) == 2 * Pow2(Bits(size) - 1);
    assert r < Pow2(Bits(size));
    ModSmall(r, Pow2(Bits(size)));
  }

  lemma JunctionSound(op: SsaOp, taken: bool, env: Env, left: Facts, right: Facts)
    requires op.kind.Do? && IsJunction(op.kind.op) && |op.inputs| >= 2 && WellTyped(op)
    requires (Read(env, op.inputs[0]) != 0) == taken ==> AllTrue(left, env)
    requires (Read(env, op.inputs[1]) != 0) == taken ==> AllTrue(right, env)
    requires (Result(op.kind.op, op.inputs, env) != 0) == taken
    ensures AllTrue(Junction(op.kind.op, taken, left, right), env)
  {
    if op.kind.op.BoolAnd? == taken {
      BothTrue(left, right, env);
    } else {
      EitherTrue(left, right, env);
    }
  }

  lemma CompareSound(op: SsaOp, taken: bool, env: Env)
    requires op.kind.Do? && IsCompare(op.kind.op) && |op.inputs| >= 2 && WellTyped(op)
    requires op.kind.op.IntLess? || op.kind.op.IntLessEqual? ==> NonNegative(op.inputs[0]) && NonNegative(op.inputs[1])
    requires (Result(op.kind.op, op.inputs, env) != 0) == taken
    ensures AllTrue(Comparison(op.kind.op, op.inputs[0], op.inputs[1], taken), env)
  {
    var a, b := op.inputs[0], op.inputs[1];
    assert Result(op.kind.op, op.inputs, env) == Result(op.kind.op, [a, b], env);
    if op.kind.op.IntEqual? || op.kind.op.IntNotEqual? {
      EqualitySound(op.kind.op, a, b, taken, env);
    } else {
      OrderingSound(op.kind.op, a, b, taken, env);
    }
  }

  /** What a condition's definition says about its inputs, and they about theirs. */
  lemma ConeStep(defs: Defs, cond: Operand, env: Env, depth: nat, taken: bool) returns (op: SsaOp)
    requires TypedDefs(defs) && depth <= MAX_DEPTH && DefOp(defs, cond).Some? && ConeHolds(defs, cond, env, depth)
    requires DefOp(defs, cond).value.inputs != [] && (Read(env, cond) != 0) == taken
    ensures op == DefOp(defs, cond).value && op.kind.Do? && WellTyped(op) && op.inputs != []
    ensures op.kind.op.Copy? || op.kind.op.BoolNot? || IsJunction(op.kind.op) ==>
      forall i :: 0 <= i < |op.inputs| ==> ConeHolds(defs, op.inputs[i], env, depth + 1)
    ensures op.kind.op.Copy? || op.kind.op.BoolNot? || IsJunction(op.kind.op) || IsCompare(op.kind.op) ==>
      (Result(op.kind.op, op.inputs, env) != 0) == taken
  {
    op := DefOp(defs, cond).value;
    assert op.out == Some(cond.value);
    if op.kind.op.Copy? || op.kind.op.BoolNot? || IsJunction(op.kind.op) || IsCompare(op.kind.op) {
      ResultTruth(op, env);
    }
  }

  /** The facts drawn from each input are true when it came out as said. */
  ghost predicate InputsSound(defs: Defs, inputs: seq<Operand>, depth: nat, env: Env) {
    forall i :: 0 <= i < |inputs| ==> AllTrue(Derive(defs, inputs[i], Read(env, inputs[i]) != 0, depth), env)
  }

  lemma DeriveStep(defs: Defs, cond: Operand, taken: bool, depth: nat, env: Env, op: SsaOp)
    requires depth <= MAX_DEPTH && DefOp(defs, cond) == Some(op) && op.kind.Do? && WellTyped(op) && op.inputs != []
    requires op.kind.op.IntLess? || op.kind.op.IntLessEqual? ==> forall i :: 0 <= i < |op.inputs| ==> NonNegative(op.inputs[i])
    requires op.kind.op.Copy? || op.kind.op.BoolNot? || IsJunction(op.kind.op) ==> InputsSound(defs, op.inputs, depth + 1, env)
    requires op.kind.op.Copy? || op.kind.op.BoolNot? || IsJunction(op.kind.op) || IsCompare(op.kind.op) ==>
      (Result(op.kind.op, op.inputs, env) != 0) == taken
    ensures AllTrue(Derive(defs, cond, taken, depth), env)
  {
    var o, inputs := op.kind.op, op.inputs;
    if |inputs| >= 2 && IsJunction(o) {
      JunctionSound(op, taken, env, Derive(defs, inputs[0], taken, depth + 1), Derive(defs, inputs[1], taken, depth + 1));
    } else if |inputs| >= 2 && IsCompare(o) {
      CompareSound(op, taken, env);
    } else if o.Copy? {
      assert AllTrue(Derive(defs, inputs[0], taken, depth + 1), env);
    } else if o.BoolNot? {
      assert AllTrue(Derive(defs, inputs[0], !taken, depth + 1), env);
    }
  }

  /** The facts drawn from a condition hold whenever it came out the way said:
      for every valuation, through copies, negation, conjunction, disjunction
      and comparison, down to the depth limit. */
  lemma {:induction false} DeriveSound(defs: Defs, cond: Operand, taken: bool, depth: nat, env: Env)
    requires TypedDefs(defs) && UnsignedConstsSmall(defs) && ConeHolds(defs, cond, env, depth)
    requires (Read(env, cond) != 0) == taken
    ensures AllTrue(Derive(defs, cond, taken, depth), env)
    decreases MAX_DEPTH + 1 - depth
  {
    if depth <= MAX_DEPTH && DefOp(defs, cond).Some? && DefOp(defs, cond).value.inputs != [] {
      var op := ConeStep(defs, cond, env, depth, taken);
      if op.kind.op.Copy? || op.kind.op.BoolNot? || IsJunction(op.kind.op) {
        forall i | 0 <= i < |op.inputs|
          ensures AllTrue(Derive(defs, op.inputs[i], Read(env, op.inputs[i]) != 0, depth + 1), env)
        {
          DeriveSound(defs, op.inputs[i], Read(env, op.inputs[i]) != 0, depth + 1, env);
        }
      }
      DeriveStep(defs, cond, taken, depth, env, op);
    }
  }

  // ----------------------------------------- where the unsigned reading fails

  /** An environment in which one operand reads as zero. */
  function ZeroEnv(): Env {
    Env(v => 0, l => 0)
  }

  /** One unsigned comparison against a constant draws only true facts, for
      every valuation, if and only if the constant is not negative at its own
      width or nothing was drawn from it. */
  lemma UnsignedSoundIff(op: Op, a: Operand, k: Operand, constOnRight: bool, taken: bool)
    requires (op.IntLess? || op.IntLessEqual?) && a.Size() == k.Size() > 0 && k.Const? && !a.Const?
    ensures (forall env :: ComesOut(op, a, k, constOnRight, taken, env) ==> AllTrue(Drawn(op, a, k, constOnRight, taken), env))
       <==> (Signed(k.bits, k.width) >= 0 || Drawn(op, a, k, constOnRight, taken) == map[])
  {
    if Signed(k.bits, k.width) >= 0 {
      forall env | ComesOut(op, a, k, constOnRight, taken, env)
        ensures AllTrue(Drawn(op, a, k, constOnRight, taken), env)
      {
        if constOnRight {
          OrderingSound(op, a, k, taken, env);
        } else {
          OrderingSound(op, k, a, taken, env);
        }
      }
    } else if Drawn(op, a, k, constOnRight, taken) != map[] {
      var env := ZeroEnv();
      assert Read(env, a) == 0;
      assert Read(env, k) > 0;
      assert ComesOut(op, a, k, constOnRight, taken, env);
      assert a in Drawn(op, a, k, constOnRight, taken);
      assert !AllTrue(Drawn(op, a, k, constOnRight, taken), env);
    }
  }

  /** The facts one comparison with a constant gives, on either side. */
  function Drawn(op: Op, a: Operand, k: Operand, constOnRight: bool, taken: bool): Facts
  {
    if constOnRight then Ordering(op, a, k, taken) else Ordering(op, k, a, taken)
  }

  ghost predicate ComesOut(op: Op, a: Operand, k: Operand, constOnRight: bool, taken: bool, env: Env)
  {
    (Result(op, if constOnRight then [a, k] else [k, a], env) != 0) == taken
  }
}
