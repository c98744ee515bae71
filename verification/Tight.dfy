/** How much the bound says: exactly what the comparisons in the guarding branches
    allow, told from the function and its conditions alone
    (crates/e5r-api/src/dataflow.rs). */
module Tight {
  import opened Ordered
  import opened Ssa
  import opened Constraints
  import opened Guard
  import Dominators

  // ------------------------------------------------------------------ what a condition allows

  datatype End = Low | High

  /** The two sides of a comparison: a value and a constant, and which is on the left. */
  datatype Sides = Sides(value: Operand, k: int, left: bool)

  /** A comparison of `o` with a constant. */
  ghost predicate Compares(inputs: seq<Operand>, o: Operand, s: Sides) {
    |inputs| >= 2 && !o.Const? && s.value == o &&
    if s.left then inputs[0] == o && inputs[1].Const? && s.k == Signed(inputs[1].bits, inputs[1].width)
    else inputs[1] == o && inputs[0].Const? && s.k == Signed(inputs[0].bits, inputs[0].width)
  }

  /** Whether a comparison that came out this way bounds its value: an equality that
      held, and an ordering that puts the value below the constant, unless nothing is. */
  ghost predicate Binds(op: Op, taken: bool, s: Sides) {
    match op
    case IntEqual => taken
    case IntNotEqual => !taken
    case IntLess => taken == s.left && (s.left ==> s.k > I64_MIN)
    case IntSLess => taken == s.left && (s.left ==> s.k > I64_MIN)
    case IntLessEqual => taken == s.left && (!s.left ==> s.k > I64_MIN)
    case IntSLessEqual => taken == s.left && (!s.left ==> s.k > I64_MIN)
    case _ => false
  }

  /** A number satisfies, at one end, a comparison that came out as it binds. */
  ghost predicate Satisfies(op: Op, s: Sides, v: int, end: End) {
    match (op, end)
    case (IntEqual, Low) => v >= s.k
    case (IntEqual, High) => v <= s.k
    case (IntNotEqual, Low) => v >= s.k
    case (IntNotEqual, High) => v <= s.k
    case (IntLess, Low) => v >= 0
    case (IntLessEqual, Low) => v >= 0
    case (IntSLess, Low) => v >= I64_MIN
    case (IntSLessEqual, Low) => v >= I64_MIN
    case (IntLess, High) => if s.left then v < s.k else !(s.k < v)
    case (IntSLess, High) => if s.left then v < s.k else !(s.k < v)
    case (IntLessEqual, High) => if s.left then v <= s.k else !(s.k <= v)
    case (IntSLessEqual, High) => if s.left then v <= s.k else !(s.k <= v)
    case _ => true
  }

  /** An ordinary operation defines the condition. */
  ghost predicate Made(defs: Defs, cond: Operand) {
    cond.Val? && cond.value in defs && defs[cond.value].kind.Do?
  }

  /** A condition that came out this way bounds `o`: one comparison in it does, and at
      a junction where either side may have held, one on both sides. */
  ghost predicate Bounds(defs: Defs, cond: Operand, taken: bool, o: Operand, depth: nat)
    decreases MAX_DEPTH + 1 - depth, cond
  {
    depth <= MAX_DEPTH && Made(defs, cond) &&
    var op, inputs := defs[cond.value].kind.op, defs[cond.value].inputs;
    match op
    case Copy => |inputs| >= 1 && Bounds(defs, inputs[0], taken, o, depth + 1)
    case BoolNot => |inputs| >= 1 && Bounds(defs, inputs[0], !taken, o, depth + 1)
    case BoolAnd => |inputs| >= 2 &&
      if taken then Bounds(defs, inputs[0], taken, o, depth + 1) || Bounds(defs, inputs[1], taken, o, depth + 1)
      else Bounds(defs, inputs[0], taken, o, depth + 1) && Bounds(defs, inputs[1], taken, o, depth + 1)
    case BoolOr => |inputs| >= 2 &&
      if taken then Bounds(defs, inputs[0], taken, o, depth + 1) && Bounds(defs, inputs[1], taken, o, depth + 1)
      else Bounds(defs, inputs[0], taken, o, depth + 1) || Bounds(defs, inputs[1], taken, o, depth + 1)
    case _ => exists s :: Compares(inputs, o, s) && Binds(op, taken, s)
  }

  /** At one end, a number for `o` is one the condition allows: each comparison that
      bounds `o` is satisfied, and at a junction where either side may have held, one
      of the two sides. */
  ghost predicate Allowed(defs: Defs, cond: Operand, taken: bool, o: Operand, v: int, end: End, depth: nat)
    decreases MAX_DEPTH + 1 - depth, 0, cond
  {
    depth <= MAX_DEPTH && Made(defs, cond) &&
    var op, inputs := defs[cond.value].kind.op, defs[cond.value].inputs;
    match op
    case Copy => |inputs| >= 1 && Allowed(defs, inputs[0], taken, o, v, end, depth + 1)
    case BoolNot => |inputs| >= 1 && Allowed(defs, inputs[0], !taken, o, v, end, depth + 1)
    case BoolAnd => |inputs| >= 2 &&
      if taken then AllowedByBoth(defs, inputs[0], inputs[1], taken, o, v, end, depth + 1)
      else Allowed(defs, inputs[0], taken, o, v, end, depth + 1) || Allowed(defs, inputs[1], taken, o, v, end, depth + 1)
    case BoolOr => |inputs| >= 2 &&
      if taken then Allowed(defs, inputs[0], taken, o, v, end, depth + 1) || Allowed(defs, inputs[1], taken, o, v, end, depth + 1)
      else AllowedByBoth(defs, inputs[0], inputs[1], taken, o, v, end, depth + 1)
    case _ => exists s :: Compares(inputs, o, s) && Binds(op, taken, s) && Satisfies(op, s, v, end)
  }

  ghost predicate AllowedByBoth(defs: Defs, x: Operand, y: Operand, taken: bool, o: Operand, v: int, end: End, depth: nat)
    decreases MAX_DEPTH + 1 - depth, 1, x
  {
    (Bounds(defs, x, taken, o, depth) ==> Allowed(defs, x, taken, o, v, end, depth)) &&
    (Bounds(defs, y, taken, o, depth) ==> Allowed(defs, y, taken, o, v, end, depth))
  }

  ghost predicate Within(r: Constraints.Range, v: int, end: End) {
    match end case Low => r.low <= v case High => v <= r.high
  }

  /** A comparison gives exactly the range of what satisfies it. */
  lemma ComparisonGives(op: Op, inputs: seq<Operand>, taken: bool, o: Operand, v: int, end: End)
    requires |inputs| >= 2 && IsCompare(op)
    ensures var facts := Comparison(op, inputs[0], inputs[1], taken);
      (o in facts <==> exists s :: Compares(inputs, o, s) && Binds(op, taken, s)) &&
      (o in facts ==> (Within(facts[o], v, end) <==>
         exists s :: Compares(inputs, o, s) && Binds(op, taken, s) && Satisfies(op, s, v, end)))
  {
    var a, b := inputs[0], inputs[1];
    var facts := Comparison(op, a, b, taken);
    if !a.Const? && b.Const? {
      LeftGives(op, inputs, taken, o, v, end);
    } else if a.Const? && !b.Const? {
      RightGives(op, inputs, taken, o, v, end);
    }
  }

  lemma LeftGives(op: Op, inputs: seq<Operand>, taken: bool, o: Operand, v: int, end: End)
    requires |inputs| >= 2 && IsCompare(op) && !inputs[0].Const? && inputs[1].Const?
    ensures var facts, s := Comparison(op, inputs[0], inputs[1], taken), Sides(o, Signed(inputs[1].bits, inputs[1].width), true);
      (forall t :: Compares(inputs, o, t) <==> t == s && o == inputs[0]) &&
      (o in facts <==> o == inputs[0] && Binds(op, taken, s)) &&
      (o in facts ==> (Within(facts[o], v, end) <==> Satisfies(op, s, v, end)))
  {
  }

  lemma RightGives(op: Op, inputs: seq<Operand>, taken: bool, o: Operand, v: int, end: End)
    requires |inputs| >= 2 && IsCompare(op) && inputs[0].Const? && !inputs[1].Const?
    ensures var facts, s := Comparison(op, inputs[0], inputs[1], taken), Sides(o, Signed(inputs[0].bits, inputs[0].width), false);
      (forall t :: Compares(inputs, o, t) <==> t == s && o == inputs[1]) &&
      (o in facts <==> o == inputs[1] && Binds(op, taken, s)) &&
      (o in facts ==> (Within(facts[o], v, end) <==> Satisfies(op, s, v, end)))
  {
  }

  /** A junction keeps what either side says when both hold, and otherwise the wider
      of what both say. */
  lemma JunctionGives(op: Op, taken: bool, left: Facts, right: Facts, o: Operand, v: int, end: End)
    requires IsJunction(op)
    ensures var facts, both := Junction(op, taken, left, right), op.BoolAnd? == taken;
      (o in facts <==> if both then o in left || o in right else o in left && o in right) &&
      (o in facts ==> (Within(facts[o], v, end) <==>
         if both then (o in left ==> Within(left[o], v, end)) && (o in right ==> Within(right[o], v, end))
         else Within(left[o], v, end) || Within(right[o], v, end)))
  {
  }

  /** What the derivation draws about a value is exactly what the condition allows. */
  lemma {:induction false} DrawnIff(defs: Defs, cond: Operand, taken: bool, o: Operand, v: int, end: End, depth: nat)
    ensures var facts := Derive(defs, cond, taken, depth);
      (o in facts <==> Bounds(defs, cond, taken, o, depth)) &&
      (o in facts ==> (Within(facts[o], v, end) <==> Allowed(defs, cond, taken, o, v, end, depth)))
    decreases MAX_DEPTH + 1 - depth
  {
    if depth <= MAX_DEPTH && Made(defs, cond) {
      var op, inputs := defs[cond.value].kind.op, defs[cond.value].inputs;
      if op.Copy? && |inputs| >= 1 {
        DrawnIff(defs, inputs[0], taken, o, v, end, depth + 1);
      } else if op.BoolNot? && |inputs| >= 1 {
        DrawnIff(defs, inputs[0], !taken, o, v, end, depth + 1);
      } else if IsJunction(op) && |inputs| >= 2 {
        DrawnIff(defs, inputs[0], taken, o, v, end, depth + 1);
        DrawnIff(defs, inputs[1], taken, o, v, end, depth + 1);
        JunctionGives(op, taken, Derive(defs, inputs[0], taken, depth + 1), Derive(defs, inputs[1], taken, depth + 1), o, v, end);
      } else if IsCompare(op) && |inputs| >= 2 {
        ComparisonGives(op, inputs, taken, o, v, end);
      }
    }
  }

  // ------------------------------------------------------------------ what the comparison itself does

  /** A comparison comes out as it binds exactly when the value, read as signed,
      satisfies it at both ends. */
  lemma ComparisonMeans(op: Op, inputs: seq<Operand>, taken: bool, o: Operand, s: Sides, env: Env)
    requires IsCompare(op) && Compares(inputs, o, s) && Binds(op, taken, s) && inputs[0].Size() == inputs[1].Size() > 0
    requires op.IntLess? || op.IntLessEqual? ==> s.k >= 0
    ensures Satisfies(op, s, ReadSigned(env, o), Low) && Satisfies(op, s, ReadSigned(env, o), High) <==>
      (Result(op, inputs, env) != 0) == taken
  {
    var k := if s.left then inputs[1] else inputs[0];
    ConstReads(env, k);
    ReadMasked(env, o);
    if op.IntEqual? || op.IntNotEqual? {
      SignedInjective(env, o, k);
    } else if op.IntLess? || op.IntLessEqual? {
      UnsignedMeans(op, s, o, k, env);
    }
  }

  /** Against a constant that is not negative, an unsigned comparison is one of
      numbers from zero up. */
  lemma UnsignedMeans(op: Op, s: Sides, o: Operand, k: Operand, env: Env)
    requires (op.IntLess? || op.IntLessEqual?) && o.Size() == k.Size() > 0 && k.Const? && s.k == Signed(k.bits, k.width) >= 0
    ensures Read(env, k) == s.k && (Read(env, o) <= s.k <==> 0 <= ReadSigned(env, o) <= s.k)
    ensures Read(env, o) < s.k <==> 0 <= ReadSigned(env, o) < s.k
  {
    MaskedTwice(k.bits, k.width);
    ReadMasked(env, o);
    if Read(env, o) <= Read(env, k) {
      SmallReadsSame(o, k, env);
    }
  }

  // ------------------------------------------------------------------ which branches and which values

  /** A block of the function that every path from a root to the call goes through. */
  ghost predicate OnWay(site: Site, b: Addr) {
    b in site.f.blocks && site.f.OnEveryPath(b, site.block)
  }

  /** The block ends in a branch on `cond` to `target`, or else to `other`. */
  ghost predicate Forks(b: SsaBlock, cond: Operand, target: Addr, other: Addr) {
    b.ops != [] &&
    var last := b.ops[|b.ops| - 1];
    last.kind == Do(CBranch) && |last.inputs| >= 2 && last.inputs[0].Const? && last.inputs[0].bits == target &&
    last.inputs[1] == cond && target in b.successors &&
    exists j :: 0 <= j < |b.successors| && b.successors[j] == other != target &&
      forall i :: 0 <= i < j ==> b.successors[i] == target
  }

  /** A branch before the call that every path to it goes through, as every path does
      through exactly one of the branch's two ways: the taken one or the other. */
  ghost predicate Sided(site: Site, at: Addr, taken: bool, cond: Operand) {
    at != site.block && OnWay(site, at) && OneWay(site, site.f.blocks[at], taken, cond)
  }

  lemma {:induction false} FirstOtherIs(successors: seq<Addr>, target: Addr, other: Addr)
    ensures FirstOther(successors, target) == Some(other) <==>
      exists j :: 0 <= j < |successors| && successors[j] == other != target && forall i :: 0 <= i < j ==> successors[i] == target
  {
    if successors != [] && successors[0] == target {
      var rest := successors[1..];
      FirstOtherIs(rest, target, other);
      if j :| 0 <= j < |rest| && rest[j] == other != target && forall i :: 0 <= i < j ==> rest[i] == target {
        assert successors[j + 1] == other && forall i :: 0 <= i < j + 1 ==> successors[i] == target;
      }
      if j :| 0 <= j < |successors| && successors[j] == other != target && forall i :: 0 <= i < j ==> successors[i] == target {
        assert rest[j - 1] == other && forall i :: 0 <= i < j - 1 ==> rest[i] == successors[i + 1] == target;
      }
    } else if successors != [] && FirstOther(successors, target) == Some(other) {
      assert successors[0] == other;
    }
  }

  lemma OnWayIff(site: Site, b: Addr)
    requires Dominators.Computed(site.f, site.doms) && site.block in site.f.blocks
    ensures OnPathsTo(site, b) <==> OnWay(site, b)
  {
  }

  /** The branch at the end of a block goes two ways, and exactly one of them is on
      every path to the call: the taken one or the other. */
  ghost predicate OneWay(site: Site, b: SsaBlock, taken: bool, cond: Operand) {
    exists target, other :: Forks(b, cond, target, other) && OnWay(site, target) == taken && OnWay(site, other) == !taken
  }

  lemma GuardOneWay(site: Site, at: Addr, taken: bool, cond: Operand)
    requires Dominators.Computed(site.f, site.doms) && site.block in site.f.blocks && at in site.f.blocks && at != site.block
    requires GuardAt(site, at) == Some((taken, cond))
    ensures OneWay(site, site.f.blocks[at], taken, cond)
  {
    var b := site.f.blocks[at];
    var target := b.ops[|b.ops| - 1].inputs[0].bits;
    var other := FirstOther(b.successors, target).value;
    FirstOtherIs(b.successors, target, other);
    OnWayIff(site, target);
    OnWayIff(site, other);
    assert Forks(b, cond, target, other);
  }

  lemma OneWayGuard(site: Site, at: Addr, taken: bool, cond: Operand)
    requires Dominators.Computed(site.f, site.doms) && site.block in site.f.blocks && at in site.f.blocks && at != site.block
    requires OneWay(site, site.f.blocks[at], taken, cond)
    ensures GuardAt(site, at) == Some((taken, cond))
  {
    var b := site.f.blocks[at];
    var target, other :| Forks(b, cond, target, other) && OnWay(site, target) == taken && OnWay(site, other) == !taken;
    OnWayIff(site, target);
    OnWayIff(site, other);
    ForkGuards(site, at, taken, cond, target, other);
  }

  lemma ForkGuards(site: Site, at: Addr, taken: bool, cond: Operand, target: Addr, other: Addr)
    requires at in site.f.blocks && at != site.block && Forks(site.f.blocks[at], cond, target, other)
    requires OnPathsTo(site, target) == taken && OnPathsTo(site, other) == !taken
    ensures GuardAt(site, at) == Some((taken, cond))
  {
    FirstOtherIs(site.f.blocks[at].successors, target, other);
  }

  /** The branches the bound listens to, and the side it takes the call to be on. */
  lemma GuardsIff(site: Site, at: Addr, taken: bool, cond: Operand)
    requires Dominators.Computed(site.f, site.doms) && site.block in site.f.blocks
    ensures Guards(site, at, taken, cond) <==> Sided(site, at, taken, cond)
  {
    OnWayIff(site, at);
    if Guards(site, at, taken, cond) {
      GuardOneWay(site, at, taken, cond);
    }
    if Sided(site, at, taken, cond) {
      OneWayGuard(site, at, taken, cond);
    }
  }

  /** One value is another copied, widened, or its low part. */
  ghost predicate From(defs: Defs, x: Operand, y: Operand) {
    x.Val? && x.value in defs && defs[x.value].kind.Do? && defs[x.value].inputs != [] && defs[x.value].inputs[0] == y &&
    match defs[x.value].kind.op
    case Copy => true
    case IntZExt => true
    case IntSExt => true
    case SubPiece => |defs[x.value].inputs| >= 2 && defs[x.value].inputs[1].Const? && defs[x.value].inputs[1].bits == 0
    case _ => false
  }

  /** So it is in at most `n` steps. */
  ghost predicate Carried(defs: Defs, x: Operand, y: Operand, n: nat)
    decreases n, x
  {
    x == y || (n > 0 && exists z :: From(defs, x, z) && Carried(defs, z, y, n - 1))
  }

  /** What has been gathered is closed, but for where the next step goes. */
  ghost predicate ClosedBut(defs: Defs, out: set<Operand>, x: Operand) {
    forall y, z :: y in out && From(defs, y, z) ==> z in out || z == x
  }

  lemma {:induction false} StaysIn(defs: Defs, out: set<Operand>, x: Operand, y: Operand, n: nat)
    requires x in out && ClosedBut(defs, out, x) && Carried(defs, x, y, n)
    ensures y in out
    decreases n
  {
    if x != y {
      var z :| From(defs, x, z) && Carried(defs, z, y, n - 1);
      assert z in out;
      StaysIn(defs, out, z, y, n - 1);
    }
  }

  lemma {:induction false} GathersIff(defs: Defs, x: Operand, out: set<Operand>, depth: nat, o: Operand)
    requires ClosedBut(defs, out, x)
    ensures o in Carriers(defs, x, out, depth) <==> o in out || (depth <= MAX_DEPTH && Carried(defs, x, o, MAX_DEPTH - depth))
    decreases MAX_DEPTH + 1 - depth
  {
    if depth <= MAX_DEPTH {
      if x in out {
        if Carried(defs, x, o, MAX_DEPTH - depth) {
          StaysIn(defs, out, x, o, MAX_DEPTH - depth);
        }
      } else if DefOp(defs, x).Some? && Carries(DefOp(defs, x).value) {
        var z := defs[x.value].inputs[0];
        assert From(defs, x, z);
        GathersIff(defs, z, out + {x}, depth + 1, o);
      }
    }
  }

  lemma CarriersIff(defs: Defs, operand: Operand, o: Operand)
    ensures o in Carriers(defs, operand, {}, 0) <==> Carried(defs, operand, o, MAX_DEPTH)
  {
    GathersIff(defs, operand, {}, 0, o);
  }

  // ------------------------------------------------------------------ the bound

  /** A branch the call is on one side of bounds a value the operand carries. */
  ghost predicate Bounded(site: Site, operand: Operand, at: Addr, taken: bool, cond: Operand, o: Operand) {
    Sided(site, at, taken, cond) && Carried(site.defs, operand, o, MAX_DEPTH) && Bounds(site.defs, cond, taken, o, 0)
  }

  /** Every such branch allows the number for the value it bounds. */
  ghost predicate AllAllow(site: Site, operand: Operand, v: int) {
    forall at, taken, cond, o :: Bounded(site, operand, at, taken, cond, o) ==>
      AllowedAt(site, taken, cond, o, v)
  }

  /** What the derivation draws about a value. */
  ghost predicate Draws(defs: Defs, cond: Operand, taken: bool, o: Operand, range: Constraints.Range) {
    o in Derive(defs, cond, taken, 0) && range == Derive(defs, cond, taken, 0)[o]
  }

  lemma DrawnMeans(defs: Defs, cond: Operand, taken: bool, o: Operand, range: Constraints.Range, v: int)
    requires Draws(defs, cond, taken, o, range)
    ensures Bounds(defs, cond, taken, o, 0)
    ensures range.Contains(v) <==> Allowed(defs, cond, taken, o, v, Low, 0) && Allowed(defs, cond, taken, o, v, High, 0)
  {
    DrawnIff(defs, cond, taken, o, v, Low, 0);
    DrawnIff(defs, cond, taken, o, v, High, 0);
    EndsMakeRange(range, v);
  }

  lemma EndsMakeRange(range: Constraints.Range, v: int)
    ensures range.Contains(v) <==> Within(range, v, Low) && Within(range, v, High)
  {
  }

  /** Each fact behind the bound is what such a branch draws. */
  lemma FactBounded(site: Site, operand: Operand, at: Addr, o: Operand, range: Constraints.Range)
    returns (taken: bool, cond: Operand)
    requires Dominators.Computed(site.f, site.doms) && site.block in site.f.blocks && Fact(site, operand, at, o, range)
    ensures Bounded(site, operand, at, taken, cond, o) && Draws(site.defs, cond, taken, o, range)
  {
    taken, cond :| Guards(site, at, taken, cond) && o in Derive(site.defs, cond, taken, 0) &&
      o in Carriers(site.defs, operand, {}, 0) && range == Derive(site.defs, cond, taken, 0)[o];
    GuardsIff(site, at, taken, cond);
    CarriersIff(site.defs, operand, o);
    DrawnMeans(site.defs, cond, taken, o, range, 0);
  }

  /** And each such branch draws one. */
  lemma BoundedFact(site: Site, operand: Operand, at: Addr, taken: bool, cond: Operand, o: Operand)
    returns (range: Constraints.Range)
    requires Dominators.Computed(site.f, site.doms) && site.block in site.f.blocks
    requires Bounded(site, operand, at, taken, cond, o)
    ensures OnPathsTo(site, at) && Fact(site, operand, at, o, range) && Draws(site.defs, cond, taken, o, range)
  {
    GuardsIff(site, at, taken, cond);
    CarriersIff(site.defs, operand, o);
    DrawnIff(site.defs, cond, taken, o, 0, Low, 0);
    range := Derive(site.defs, cond, taken, 0)[o];
  }

  /** The bound is there exactly when some branch with the call on one side bounds a
      value the operand carries, and it allows exactly the numbers they all allow. */
  lemma BoundIs(site: Site, operand: Operand, out: Option<Constraints.Range>)
    requires Dominators.Computed(site.f, site.doms) && site.block in site.f.blocks
    requires Allows(out, FactsFrom(site, Carriers(site.defs, operand, {}, 0), Sorted(site.doms[site.block])))
    ensures out.Some? <==> exists at, taken, cond, o :: Bounded(site, operand, at, taken, cond, o)
    ensures out.Some? ==> forall v :: out.value.Contains(v) <==> AllAllow(site, operand, v)
  {
    if out.Some? {
      SomeBounded(site, operand, out);
      forall v ensures out.value.Contains(v) <==> AllAllow(site, operand, v) {
        BoundAllows(site, operand, out, v);
      }
    }
    if at, taken, cond, o :| Bounded(site, operand, at, taken, cond, o) {
      var x := BoundedListed(site, operand, at, taken, cond, o);
    }
  }

  /** What a branch draws is among the facts. */
  lemma BoundedListed(site: Site, operand: Operand, at: Addr, taken: bool, cond: Operand, o: Operand)
    returns (range: Constraints.Range)
    requires Dominators.Computed(site.f, site.doms) && site.block in site.f.blocks
    requires Bounded(site, operand, at, taken, cond, o)
    ensures (at, o, range) in FactsFrom(site, Carriers(site.defs, operand, {}, 0), Sorted(site.doms[site.block]))
    ensures Draws(site.defs, cond, taken, o, range)
  {
    range := BoundedFact(site, operand, at, taken, cond, o);
    FactsFromMember(site, operand, Sorted(site.doms[site.block]), (at, o, range));
  }

  lemma SomeBounded(site: Site, operand: Operand, out: Option<Constraints.Range>)
    requires Dominators.Computed(site.f, site.doms) && site.block in site.f.blocks && out.Some?
    requires Allows(out, FactsFrom(site, Carriers(site.defs, operand, {}, 0), Sorted(site.doms[site.block])))
    ensures exists at, taken, cond, o :: Bounded(site, operand, at, taken, cond, o)
  {
    var order := Sorted(site.doms[site.block]);
    var x :| x in FactsFrom(site, Carriers(site.defs, operand, {}, 0), order);
    FactsFromMember(site, operand, order, x);
    var taken, cond := FactBounded(site, operand, x.0, x.1, x.2);
  }

  ghost predicate AllowedAt(site: Site, taken: bool, cond: Operand, o: Operand, v: int) {
    Fits(site.defs, cond, taken, o, v, 0)
  }

  lemma BranchAllows(site: Site, operand: Operand, out: Option<Constraints.Range>, v: int, at: Addr, taken: bool, cond: Operand,
                     o: Operand)
    requires Dominators.Computed(site.f, site.doms) && site.block in site.f.blocks && out.Some? && out.value.Contains(v)
    requires Allows(out, FactsFrom(site, Carriers(site.defs, operand, {}, 0), Sorted(site.doms[site.block])))
    requires Bounded(site, operand, at, taken, cond, o)
    ensures AllowedAt(site, taken, cond, o, v)
  {
    var range := BoundedListed(site, operand, at, taken, cond, o);
    assert (at, o, range).2.Contains(v);
    DrawnMeans(site.defs, cond, taken, o, range, v);
  }

  lemma FactAllows(site: Site, operand: Operand, v: int, x: (Addr, Operand, Constraints.Range))
    requires Dominators.Computed(site.f, site.doms) && site.block in site.f.blocks && AllAllow(site, operand, v)
    requires x in FactsFrom(site, Carriers(site.defs, operand, {}, 0), Sorted(site.doms[site.block]))
    ensures x.2.Contains(v)
  {
    FactsFromMember(site, operand, Sorted(site.doms[site.block]), x);
    var taken, cond := FactBounded(site, operand, x.0, x.1, x.2);
    assert AllowedAt(site, taken, cond, x.1, v);
    DrawnMeans(site.defs, cond, taken, x.1, x.2, v);
  }

  lemma BoundAllows(site: Site, operand: Operand, out: Option<Constraints.Range>, v: int)
    requires Dominators.Computed(site.f, site.doms) && site.block in site.f.blocks && out.Some?
    requires Allows(out, FactsFrom(site, Carriers(site.defs, operand, {}, 0), Sorted(site.doms[site.block])))
    ensures out.value.Contains(v) <==> AllAllow(site, operand, v)
  {
    if out.value.Contains(v) {
      forall at, taken, cond, o | Bounded(site, operand, at, taken, cond, o) ensures AllowedAt(site, taken, cond, o, v) {
        BranchAllows(site, operand, out, v, at, taken, cond, o);
      }
    }
    if AllAllow(site, operand, v) {
      forall x | x in FactsFrom(site, Carriers(site.defs, operand, {}, 0), Sorted(site.doms[site.block]))
        ensures x.2.Contains(v)
      {
        FactAllows(site, operand, v, x);
      }
    }
  }

  /** So for one comparison: of a value the operand carries with a constant, in a
      branch the call is on one side of, that came out as it binds. */
  lemma ComparisonBounds(site: Site, operand: Operand, out: Option<Constraints.Range>, at: Addr, taken: bool, cond: Operand,
                         o: Operand, s: Sides)
    requires Dominators.Computed(site.f, site.doms) && site.block in site.f.blocks
    requires Allows(out, FactsFrom(site, Carriers(site.defs, operand, {}, 0), Sorted(site.doms[site.block])))
    requires Sided(site, at, taken, cond) && Carried(site.defs, operand, o, MAX_DEPTH) && Made(site.defs, cond)
    requires var made := site.defs[cond.value];
      IsCompare(made.kind.op) && Compares(made.inputs, o, s) && Binds(made.kind.op, taken, s)
    ensures out.Some? && forall v :: out.value.Contains(v) ==>
      Satisfies(site.defs[cond.value].kind.op, s, v, Low) && Satisfies(site.defs[cond.value].kind.op, s, v, High)
  {
    var op, inputs := site.defs[cond.value].kind.op, site.defs[cond.value].inputs;
    assert Bounded(site, operand, at, taken, cond, o);
    BoundIs(site, operand, out);
    forall v | out.value.Contains(v) ensures Satisfies(op, s, v, Low) && Satisfies(op, s, v, High) {
      assert AllowedAt(site, taken, cond, o, v);
      OneReading(op, inputs, taken, o, s, v, Low);
      OneReading(op, inputs, taken, o, s, v, High);
    }
  }

  lemma OneReading(op: Op, inputs: seq<Operand>, taken: bool, o: Operand, s: Sides, v: int, end: End)
    requires Compares(inputs, o, s)
    requires exists t :: Compares(inputs, o, t) && Binds(op, taken, t) && Satisfies(op, t, v, end)
    ensures Satisfies(op, s, v, end)
  {
    var t :| Compares(inputs, o, t) && Binds(op, taken, t) && Satisfies(op, t, v, end);
    assert t == s;
  }

  // ------------------------------------------------------------------ conditions that say all they test

  /** Copies, negations, and junctions both of whose sides hold, over comparisons that
      bind the one value. */
  ghost predicate Plain(defs: Defs, cond: Operand, taken: bool, o: Operand, depth: nat)
    decreases MAX_DEPTH + 1 - depth, cond
  {
    depth <= MAX_DEPTH && Made(defs, cond) &&
    var op, inputs := defs[cond.value].kind.op, defs[cond.value].inputs;
    match op
    case Copy => |inputs| >= 1 && Plain(defs, inputs[0], taken, o, depth + 1)
    case BoolNot => |inputs| >= 1 && Plain(defs, inputs[0], !taken, o, depth + 1)
    case BoolAnd =>
      |inputs| >= 2 && taken && Plain(defs, inputs[0], true, o, depth + 1) && Plain(defs, inputs[1], true, o, depth + 1)
    case BoolOr =>
      |inputs| >= 2 && !taken && Plain(defs, inputs[0], false, o, depth + 1) && Plain(defs, inputs[1], false, o, depth + 1)
    case _ => IsCompare(op) && exists s :: Compares(inputs, o, s) && Binds(op, taken, s)
  }

  lemma {:induction false} PlainBounds(defs: Defs, cond: Operand, taken: bool, o: Operand, depth: nat)
    requires Plain(defs, cond, taken, o, depth)
    ensures Bounds(defs, cond, taken, o, depth)
    decreases MAX_DEPTH + 1 - depth
  {
    var op, inputs := defs[cond.value].kind.op, defs[cond.value].inputs;
    if op.Copy? {
      PlainBounds(defs, inputs[0], taken, o, depth + 1);
    } else if op.BoolNot? {
      PlainBounds(defs, inputs[0], !taken, o, depth + 1);
    } else if IsJunction(op) {
      PlainBounds(defs, inputs[0], taken, o, depth + 1);
      PlainBounds(defs, inputs[1], taken, o, depth + 1);
    }
  }

  /** The condition allows the number at both ends. */
  ghost predicate Fits(defs: Defs, cond: Operand, taken: bool, o: Operand, v: int, depth: nat) {
    Allowed(defs, cond, taken, o, v, Low, depth) && Allowed(defs, cond, taken, o, v, High, depth)
  }

  lemma FitsStep(defs: Defs, cond: Operand, taken: bool, o: Operand, v: int, depth: nat)
    requires Plain(defs, cond, taken, o, depth)
    ensures var op, inputs := defs[cond.value].kind.op, defs[cond.value].inputs;
      Fits(defs, cond, taken, o, v, depth) <==>
        match op
        case Copy => Fits(defs, inputs[0], taken, o, v, depth + 1)
        case BoolNot => Fits(defs, inputs[0], !taken, o, v, depth + 1)
        case BoolAnd => Fits(defs, inputs[0], taken, o, v, depth + 1) && Fits(defs, inputs[1], taken, o, v, depth + 1)
        case BoolOr => Fits(defs, inputs[0], taken, o, v, depth + 1) && Fits(defs, inputs[1], taken, o, v, depth + 1)
        case _ => Fits(defs, cond, taken, o, v, depth)
  {
    var op, inputs := defs[cond.value].kind.op, defs[cond.value].inputs;
    if IsJunction(op) {
      PlainBounds(defs, inputs[0], taken, o, depth + 1);
      PlainBounds(defs, inputs[1], taken, o, depth + 1);
      BothFit(defs, inputs[0], inputs[1], taken, o, v, depth + 1);
      JunctionAllows(defs, cond, taken, o, v, Low, depth);
      JunctionAllows(defs, cond, taken, o, v, High, depth);
    }
  }

  lemma JunctionAllows(defs: Defs, cond: Operand, taken: bool, o: Operand, v: int, end: End, depth: nat)
    requires Plain(defs, cond, taken, o, depth) && IsJunction(defs[cond.value].kind.op)
    ensures var inputs := defs[cond.value].inputs;
      Allowed(defs, cond, taken, o, v, end, depth) <==> AllowedByBoth(defs, inputs[0], inputs[1], taken, o, v, end, depth + 1)
  {
  }

  lemma BothFit(defs: Defs, x: Operand, y: Operand, taken: bool, o: Operand, v: int, depth: nat)
    requires Bounds(defs, x, taken, o, depth) && Bounds(defs, y, taken, o, depth)
    ensures AllowedByBoth(defs, x, y, taken, o, v, Low, depth) && AllowedByBoth(defs, x, y, taken, o, v, High, depth) <==>
      Fits(defs, x, taken, o, v, depth) && Fits(defs, y, taken, o, v, depth)
  {
  }

  ghost predicate True(env: Env, cond: Operand) {
    Read(env, cond) != 0
  }

  /** What a condition's truth is made of. */
  lemma TruthStep(defs: Defs, cond: Operand, taken: bool, o: Operand, env: Env, depth: nat)
    requires TypedDefs(defs) && ConeHolds(defs, cond, env, depth) && Plain(defs, cond, taken, o, depth)
    ensures var op, inputs := defs[cond.value].kind.op, defs[cond.value].inputs;
      match op
      case Copy => True(env, cond) == True(env, inputs[0]) && ConeHolds(defs, inputs[0], env, depth + 1)
      case BoolNot => True(env, cond) == !True(env, inputs[0]) && ConeHolds(defs, inputs[0], env, depth + 1)
      case BoolAnd => True(env, cond) == (True(env, inputs[0]) && True(env, inputs[1])) &&
        ConeHolds(defs, inputs[0], env, depth + 1) && ConeHolds(defs, inputs[1], env, depth + 1)
      case BoolOr => True(env, cond) == (True(env, inputs[0]) || True(env, inputs[1])) &&
        ConeHolds(defs, inputs[0], env, depth + 1) && ConeHolds(defs, inputs[1], env, depth + 1)
      case _ => True(env, cond) == (Result(op, inputs, env) != 0)
  {
    var made := ConeStep(defs, cond, env, depth, Read(env, cond) != 0);
    assert made == defs[cond.value];
    assert made.kind.op.Copy? ==> Result(made.kind.op, made.inputs, env) == Read(env, made.inputs[0]);
  }

  /** Such a condition comes out this way exactly when the value is a number it
      allows: nothing it tests is lost. */
  lemma {:induction false} PlainMeans(defs: Defs, cond: Operand, taken: bool, o: Operand, env: Env, depth: nat)
    requires TypedDefs(defs) && UnsignedConstsSmall(defs) && ConeHolds(defs, cond, env, depth)
    requires Plain(defs, cond, taken, o, depth)
    ensures Fits(defs, cond, taken, o, ReadSigned(env, o), depth) <==> True(env, cond) == taken
    decreases MAX_DEPTH + 1 - depth
  {
    var op, inputs := defs[cond.value].kind.op, defs[cond.value].inputs;
    FitsStep(defs, cond, taken, o, ReadSigned(env, o), depth);
    TruthStep(defs, cond, taken, o, env, depth);
    if op.Copy? {
      PlainMeans(defs, inputs[0], taken, o, env, depth + 1);
    } else if op.BoolNot? {
      PlainMeans(defs, inputs[0], !taken, o, env, depth + 1);
    } else if IsJunction(op) {
      PlainMeans(defs, inputs[0], taken, o, env, depth + 1);
      PlainMeans(defs, inputs[1], taken, o, env, depth + 1);
    } else {
      LeafMeans(defs, cond, taken, o, env, depth);
    }
  }

  lemma LeafMeans(defs: Defs, cond: Operand, taken: bool, o: Operand, env: Env, depth: nat)
    requires TypedDefs(defs) && UnsignedConstsSmall(defs) && depth <= MAX_DEPTH && Made(defs, cond)
    requires var made := defs[cond.value];
      IsCompare(made.kind.op) && (exists s :: Compares(made.inputs, o, s) && Binds(made.kind.op, taken, s)) &&
      ((Result(made.kind.op, made.inputs, env) != 0) == True(env, cond))
    ensures Fits(defs, cond, taken, o, ReadSigned(env, o), depth) <==> True(env, cond) == taken
  {
    var made := defs[cond.value];
    var op, inputs, v := made.kind.op, made.inputs, ReadSigned(env, o);
    var s :| Compares(inputs, o, s) && Binds(op, taken, s);
    assert WellTyped(made);
    assert op.IntLess? || op.IntLessEqual? ==> NonNegative(if s.left then inputs[1] else inputs[0]);
    ComparisonMeans(op, inputs, taken, o, s, env);
    if Allowed(defs, cond, taken, o, v, Low, depth) {
      OneReading(op, inputs, taken, o, s, v, Low);
    }
    if Allowed(defs, cond, taken, o, v, High, depth) {
      OneReading(op, inputs, taken, o, s, v, High);
    }
  }
}
