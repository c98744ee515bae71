/** Why a guard's bound is a bound: over every execution that reaches the call,
    the branch last went the way claimed, and what it tested is what is passed. */
module GuardTheorem {
  import opened Ordered
  import opened Ssa
  import opened Constraints
  import opened Guard
  import opened Paths
  import Dominators

  // -------------------------------------------------------------- executions

  /** A block has just been executed, and its values hold what they hold. */
  datatype Moment = Moment(block: Addr, env: Env)

  ghost function Path(trace: seq<Moment>): (path: seq<Addr>)
    ensures |path| == |trace| && forall k :: 0 <= k < |trace| ==> path[k] == trace[k].block
  {
    seq(|trace|, k requires 0 <= k < |trace| => trace[k].block)
  }

  ghost predicate Defines(b: SsaBlock, v: Value) {
    exists j :: 0 <= j < |b.ops| && b.ops[j].out == Some(v)
  }

  /** The first `n` operations of a block have had their effect. */
  ghost predicate Executed(b: SsaBlock, n: nat, env: Env) {
    forall j :: 0 <= j < n && j < |b.ops| ==> Holds(b.ops[j], env)
  }

  /** Moving on changes only what the next block defines. */
  ghost predicate Frame(b: SsaBlock, before: Env, after: Env) {
    after.incoming == before.incoming && forall v :: !Defines(b, v) ==> after.values(v) == before.values(v)
  }

  /** A conditional branch goes to its target exactly when its condition is not zero. */
  ghost predicate Branches(b: SsaBlock, env: Env, next: Addr) {
    b.ops != [] && b.ops[|b.ops| - 1].kind == Do(CBranch) && |b.ops[|b.ops| - 1].inputs| > 1 &&
      b.ops[|b.ops| - 1].inputs[0].Const? ==>
      (next == b.ops[|b.ops| - 1].inputs[0].bits <==> Read(env, b.ops[|b.ops| - 1].inputs[1]) != 0)
  }

  /** A block of the function; a block that is not there does nothing. */
  function BlockAt(f: SsaFunction, a: Addr): SsaBlock {
    if a in f.blocks then f.blocks[a] else SsaBlock([], [], [])
  }

  /** A run from the entry to the call: every block but the last is executed
      whole, and the last up to the call. */
  ghost predicate Execution(site: Site, trace: seq<Moment>) {
    match site
    case Site(f, _, _, block, index) =>
      f.EntryPath(Path(trace), block) &&
      (forall k :: 0 <= k < |trace| - 1 ==>
        Executed(BlockAt(f, trace[k].block), |BlockAt(f, trace[k].block).ops|, trace[k].env) &&
        Branches(BlockAt(f, trace[k].block), trace[k].env, trace[k + 1].block)) &&
      Executed(BlockAt(f, block), index, trace[|trace| - 1].env) &&
      (forall k :: 1 <= k < |trace| ==> Frame(BlockAt(f, trace[k].block), trace[k - 1].env, trace[k].env))
  }

  /** Where a value is defined: its block, and the position in it. */
  type Homes = map<Value, (Addr, nat)>

  /** Each value has one definition, and an operation's inputs are defined in
      dominating blocks, or earlier in the same one. */
  ghost predicate SingleAssignment(f: SsaFunction, defs: Defs, homes: Homes) {
    defs.Keys == homes.Keys &&
    (forall v :: v in homes ==>
      homes[v].0 in f.blocks && homes[v].1 < |f.blocks[homes[v].0].ops| &&
      f.blocks[homes[v].0].ops[homes[v].1] == defs[v]) &&
    (forall b, j :: b in f.blocks && 0 <= j < |f.blocks[b].ops| && f.blocks[b].ops[j].out.Some? ==>
      f.blocks[b].ops[j].out.value in homes && homes[f.blocks[b].ops[j].out.value] == (b, j)) &&
    (forall b, j :: b in f.blocks && 0 <= j < |f.blocks[b].ops| && f.blocks[b].ops[j].kind.Do? ==>
      AllAvailable(f, homes, f.blocks[b].ops[j].inputs, b, j))
  }

  /** An operand is usable at a place: what defines it dominates the place, or
      comes earlier in the same block. */
  ghost predicate Available(f: SsaFunction, homes: Homes, o: Operand, b: Addr, j: nat) {
    o.Val? && o.value in homes ==>
      f.Dominates(homes[o.value].0, b) && (homes[o.value].0 == b ==> homes[o.value].1 < j)
  }

  ghost predicate AllAvailable(f: SsaFunction, homes: Homes, inputs: seq<Operand>, b: Addr, j: nat) {
    forall i :: 0 <= i < |inputs| ==> Available(f, homes, inputs[i], b, j)
  }

  ghost predicate SsaForm(site: Site, homes: Homes) {
    match site
    case Site(f, defs, doms, block, index) =>
      SingleAssignment(f, defs, homes) && TypedDefs(defs) && Dominators.Computed(f, doms) &&
      block in f.blocks && index <= |f.blocks[block].ops|
  }

  // ------------------------------------------------------ what stays the same

  /** A value whose block is not visited keeps its contents. */
  lemma {:induction false} ValueKept(site: Site, homes: Homes, trace: seq<Moment>, v: Value, l: nat, m: nat)
    requires SsaForm(site, homes) && Execution(site, trace) && l <= m < |trace|
    requires v in homes ==> forall k :: l < k <= m ==> trace[k].block != homes[v].0
    ensures trace[m].env.values(v) == trace[l].env.values(v)
    ensures trace[m].env.incoming == trace[l].env.incoming
    decreases m - l
  {
    if l < m {
      ValueKept(site, homes, trace, v, l, m - 1);
      var b := BlockAt(site.f, trace[m].block);
      assert Frame(b, trace[m - 1].env, trace[m].env);
      NotDefinedHere(site, homes, trace[m].block, v);
    }
  }

  lemma NotDefinedHere(site: Site, homes: Homes, b: Addr, v: Value)
    requires SsaForm(site, homes) && (v in homes ==> homes[v].0 != b)
    ensures !Defines(BlockAt(site.f, b), v)
  {
    var block := BlockAt(site.f, b);
    forall j | 0 <= j < |block.ops| ensures block.ops[j].out != Some(v) {
    }
  }

  /** An operand available at a block that was last visited at `l` reads the
      same at `m`, when that block dominates the one visited at `m`. */
  lemma OperandKept(site: Site, homes: Homes, trace: seq<Moment>, o: Operand, d: Addr, l: nat, m: nat)
    requires SsaForm(site, homes) && Execution(site, trace) && l <= m < |trace|
    requires LastAt(Path(trace)[..m + 1], d, l) && site.f.Dominates(d, trace[m].block)
    requires o.Val? && o.value in homes ==> site.f.Dominates(homes[o.value].0, d)
    ensures Read(trace[m].env, o) == Read(trace[l].env, o)
  {
    match o
    case Const(_, _) =>
    case Undefined(_) => ValueKept(site, homes, trace, Value(Location(0, 0, 0), 0), l, m);
    case Val(v) => HomeKept(site, homes, trace, v, d, l, m);
  }

  lemma HomeKept(site: Site, homes: Homes, trace: seq<Moment>, v: Value, d: Addr, l: nat, m: nat)
    requires SsaForm(site, homes) && Execution(site, trace) && l <= m < |trace|
    requires LastAt(Path(trace)[..m + 1], d, l) && site.f.Dominates(d, trace[m].block)
    requires v in homes ==> site.f.Dominates(homes[v].0, d)
    ensures trace[m].env.values(v) == trace[l].env.values(v)
  {
    if v in homes {
      var path, h := Path(trace)[..m + 1], homes[v].0;
      EntryPrefix(site.f, Path(trace), site.block, m);
      if h != d {
        NotAgain(site.f, path, trace[m].block, d, h, l);
      }
      forall k | l < k <= m ensures trace[k].block != h {
        assert path[k] == trace[k].block;
      }
    }
    ValueKept(site, homes, trace, v, l, m);
  }

  // ------------------------------------------- what the branch knew still holds

  /** Whether an operation's equation holds depends only on what its inputs and
      its output read as. */
  lemma HoldsTransfer(op: SsaOp, was: Env, now: Env)
    requires Holds(op, was)
    requires forall i :: 0 <= i < |op.inputs| ==> Read(now, op.inputs[i]) == Read(was, op.inputs[i])
    requires op.out.Some? ==> Read(now, Val(op.out.value)) == Read(was, Val(op.out.value))
    ensures Holds(op, now)
  {
    if op.inputs != [] && op.kind.Do? {
      ResultTransfer(op.kind.op, op.inputs, was, now);
    }
  }

  lemma ResultTransfer(op: Op, inputs: seq<Operand>, was: Env, now: Env)
    requires inputs != []
    requires forall i :: 0 <= i < |inputs| ==> Read(now, inputs[i]) == Read(was, inputs[i])
    ensures Result(op, inputs, now) == Result(op, inputs, was)
  {
    assert ReadSigned(now, inputs[0]) == ReadSigned(was, inputs[0]);
    assert |inputs| > 1 ==> ReadSigned(now, inputs[1]) == ReadSigned(was, inputs[1]);
  }

  /** The k-th moment's block has run as far as operation `j`. */
  ghost predicate RunTo(site: Site, trace: seq<Moment>, m: nat, j: nat) {
    m < |trace| - 1 || (m == |trace| - 1 && j < site.index)
  }

  /** A dominating definition's equation holds at every later moment its block
      dominates, since neither it nor its inputs are computed again. */
  lemma DefinitionHolds(site: Site, homes: Homes, trace: seq<Moment>, v: Value, m: nat)
    requires SsaForm(site, homes) && Execution(site, trace) && m < |trace| && v in homes
    requires site.f.Dominates(homes[v].0, trace[m].block)
    requires homes[v].0 == trace[m].block ==> RunTo(site, trace, m, homes[v].1)
    requires site.defs[v].kind.Do?
    ensures Holds(site.defs[v], trace[m].env)
  {
    var (d, j) := homes[v];
    var path, op := Path(trace)[..m + 1], site.defs[v];
    EntryPrefix(site.f, Path(trace), site.block, m);
    var l := LastExists(path, d);
    assert path[l] == trace[l].block && path[m] == trace[m].block;
    assert Holds(op, trace[l].env) by {
      assert BlockAt(site.f, d).ops[j] == op;
      assert Executed(BlockAt(site.f, d), if l < |trace| - 1 then |BlockAt(site.f, d).ops| else site.index, trace[l].env);
    }
    assert AllAvailable(site.f, homes, op.inputs, d, j);
    forall i | 0 <= i < |op.inputs| ensures Read(trace[m].env, op.inputs[i]) == Read(trace[l].env, op.inputs[i]) {
      assert Available(site.f, homes, op.inputs[i], d, j);
      OperandKept(site, homes, trace, op.inputs[i], d, l, m);
    }
    OperandKept(site, homes, trace, Val(v), d, l, m);
    HoldsTransfer(op, trace[l].env, trace[m].env);
  }

  /** Every definition behind a condition that is available at the end of a
      block holds right after the block is executed. */
  lemma {:induction false} ConeAt(site: Site, homes: Homes, trace: seq<Moment>, cond: Operand, m: nat, depth: nat)
    requires SsaForm(site, homes) && Execution(site, trace) && m < |trace| - 1
    requires cond.Val? && cond.value in homes ==> site.f.Dominates(homes[cond.value].0, trace[m].block)
    ensures ConeHolds(site.defs, cond, trace[m].env, depth)
    decreases MAX_DEPTH + 1 - depth
  {
    if depth <= MAX_DEPTH && DefOp(site.defs, cond).Some? {
      var v := cond.value;
      var op := site.defs[v];
      DefinitionHolds(site, homes, trace, v, m);
      assert AllAvailable(site.f, homes, op.inputs, homes[v].0, homes[v].1);
      forall i | 0 <= i < |op.inputs| ensures ConeHolds(site.defs, op.inputs[i], trace[m].env, depth + 1) {
        InputDominates(site, homes, op.inputs[i], homes[v].0, homes[v].1, trace[m].block);
        ConeAt(site, homes, trace, op.inputs[i], m, depth + 1);
      }
    }
  }

  lemma InputDominates(site: Site, homes: Homes, o: Operand, d: Addr, j: nat, b: Addr)
    requires Available(site.f, homes, o, d, j) && site.f.Dominates(d, b)
    ensures o.Val? && o.value in homes ==> site.f.Dominates(homes[o.value].0, b)
  {
    if o.Val? && o.value in homes {
      DominatesTransitive(site.f, homes[o.value].0, d, b);
    }
  }

  /** A fact is about an input of the condition's definition, or comes from one. */
  lemma FactFrom(defs: Defs, cond: Operand, taken: bool, depth: nat, o: Operand) returns (i: nat, t: bool)
    requires depth <= MAX_DEPTH && o in Derive(defs, cond, taken, depth)
    ensures DefOp(defs, cond).Some? && i < |DefOp(defs, cond).value.inputs|
    ensures o == DefOp(defs, cond).value.inputs[i] || o in Derive(defs, DefOp(defs, cond).value.inputs[i], t, depth + 1)
  {
    var op := DefOp(defs, cond).value;
    t := if op.kind.op.BoolNot? then !taken else taken;
    if IsJunction(op.kind.op) {
      i := if o in Derive(defs, op.inputs[0], taken, depth + 1) then 0 else 1;
    } else if IsCompare(op.kind.op) {
      i := if o == op.inputs[0] then 0 else 1;
    } else {
      i := 0;
    }
  }

  /** What a dominating definition takes in is defined in a dominating block too. */
  lemma InputReaches(site: Site, homes: Homes, v: Value, i: nat, b: Addr)
    requires SsaForm(site, homes) && v in site.defs && site.defs[v].kind.Do? && i < |site.defs[v].inputs|
    requires site.f.Dominates(homes[v].0, b)
    ensures var o := site.defs[v].inputs[i]; o.Val? && o.value in homes ==> site.f.Dominates(homes[o.value].0, b)
  {
    assert AllAvailable(site.f, homes, site.defs[v].inputs, homes[v].0, homes[v].1);
    InputDominates(site, homes, site.defs[v].inputs[i], homes[v].0, homes[v].1, b);
  }

  /** What defines an operand, if anything does, is on every path to a block. */
  ghost predicate Reached(f: SsaFunction, homes: Homes, o: Operand, b: Addr) {
    match o
    case Val(v) => v in homes ==> f.Dominates(homes[v].0, b)
    case _ => true
  }

  /** What is defined where that is so takes in only what is, too. */
  ghost predicate Downward(f: SsaFunction, defs: Defs, homes: Homes, b: Addr) {
    forall v, i :: v in defs && defs[v].kind.Do? && 0 <= i < |defs[v].inputs| && Reached(f, homes, Val(v), b) ==>
      Reached(f, homes, defs[v].inputs[i], b)
  }

  lemma FormIsDownward(site: Site, homes: Homes, b: Addr)
    requires SsaForm(site, homes)
    ensures Downward(site.f, site.defs, homes, b)
  {
    forall v, i | v in site.defs && site.defs[v].kind.Do? && 0 <= i < |site.defs[v].inputs| && Reached(site.f, homes, Val(v), b)
      ensures Reached(site.f, homes, site.defs[v].inputs[i], b)
    {
      InputReaches(site, homes, v, i, b);
    }
  }

  lemma {:induction false} FactReached(f: SsaFunction, defs: Defs, homes: Homes, cond: Operand, taken: bool, b: Addr, depth: nat,
                                       o: Operand)
    requires Downward(f, defs, homes, b) && o in Derive(defs, cond, taken, depth) && Reached(f, homes, cond, b)
    ensures Reached(f, homes, o, b)
    decreases MAX_DEPTH + 1 - depth
  {
    if depth <= MAX_DEPTH {
      var i, t := FactFrom(defs, cond, taken, depth, o);
      var input := defs[cond.value].inputs[i];
      if o != input {
        FactReached(f, defs, homes, input, t, b, depth + 1, o);
      }
    }
  }

  /** Everything a condition says something about is available where it is. */
  lemma FactAvailable(site: Site, homes: Homes, cond: Operand, taken: bool, b: Addr, o: Operand)
    requires SsaForm(site, homes) && o in Derive(site.defs, cond, taken, 0)
    requires cond.Val? && cond.value in homes ==> site.f.Dominates(homes[cond.value].0, b)
    ensures o.Val? && o.value in homes ==> site.f.Dominates(homes[o.value].0, b)
  {
    FormIsDownward(site, homes, b);
    FactReached(site.f, site.defs, homes, cond, taken, b, 0, o);
  }

  // -------------------------------------------------- the branch and its side

  /** The successor the call is on, according to `Edge`. */
  ghost predicate Chosen(site: Site, at: Addr, taken: bool, chosen: Addr) {
    at in site.f.blocks && site.f.blocks[at].ops != [] &&
    var b := site.f.blocks[at];
    var last := b.ops[|b.ops| - 1];
    last.inputs != [] && last.inputs[0].Const? &&
    if taken then chosen == last.inputs[0].bits else FirstOther(b.successors, last.inputs[0].bits) == Some(chosen)
  }

  /** On every way to the call, the branch's last visit leaves by the side the
      guard says. It does whenever that side has no other way in. */
  ghost predicate SideSettled(site: Site, at: Addr, taken: bool) {
    exists chosen :: Chosen(site, at, taken, chosen) && LastLeavesBy(site.f, at, chosen, site.block)
  }

  /** The side condition under which the claim about the side is right: the
      chosen successor is not the entry and only the branch leads to it. */
  lemma SideFromOnlyPredecessor(site: Site, at: Addr, taken: bool, cond: Operand, chosen: Addr)
    requires Dominators.Computed(site.f, site.doms) && Guards(site, at, taken, cond) && Chosen(site, at, taken, chosen)
    requires chosen != site.f.entry && forall p :: site.f.Edge(p, chosen) ==> p == at
    ensures SideSettled(site, at, taken)
  {
    assert OnPathsTo(site, chosen);
    Dominators.ListedDominates(site.f, site.doms, site.block, chosen);
    OnlyPredecessorLeaves(site.f, at, chosen, site.block);
  }

  /** Leaving by the chosen successor tells which way the condition came out. */
  lemma BranchSide(site: Site, at: Addr, taken: bool, cond: Operand, chosen: Addr, env: Env)
    requires Guards(site, at, taken, cond) && Chosen(site, at, taken, chosen)
    requires Branches(BlockAt(site.f, at), env, chosen)
    ensures (Read(env, cond) != 0) == taken
  {
  }

  /** In an execution that reaches the call, a guarding branch whose side is
      settled last came out the way the guard says. */
  lemma BranchCameOut(site: Site, homes: Homes, trace: seq<Moment>, at: Addr, taken: bool, cond: Operand) returns (l: nat)
    requires SsaForm(site, homes) && Execution(site, trace)
    requires Guards(site, at, taken, cond) && SideSettled(site, at, taken)
    ensures l < |trace| - 1 && LastAt(Path(trace)[..|trace|], at, l) && trace[l].block == at
    ensures site.f.Dominates(at, trace[|trace| - 1].block)
    ensures (Read(trace[l].env, cond) != 0) == taken
  {
    var path := Path(trace);
    Dominators.ListedDominates(site.f, site.doms, site.block, at);
    l := LastExists(path, at);
    assert path[..|trace|] == path && path[|trace| - 1] == site.block;
    var chosen :| Chosen(site, at, taken, chosen) && LastLeavesBy(site.f, at, chosen, site.block);
    assert path[l + 1] == chosen == trace[l + 1].block;
    BranchSide(site, at, taken, cond, chosen, trace[l].env);
  }

  lemma InputAvailable(site: Site, homes: Homes, b: Addr, j: nat, i: nat)
    requires SsaForm(site, homes) && b in site.f.blocks && j < |site.f.blocks[b].ops|
    requires site.f.blocks[b].ops[j].kind.Do? && i < |site.f.blocks[b].ops[j].inputs|
    ensures Available(site.f, homes, site.f.blocks[b].ops[j].inputs[i], b, j)
  {
    assert AllAvailable(site.f, homes, site.f.blocks[b].ops[j].inputs, b, j);
  }

  /** A branch's condition is available at the end of the branch's block. */
  lemma CondAvailable(site: Site, homes: Homes, at: Addr, taken: bool, cond: Operand)
    requires SsaForm(site, homes) && Guards(site, at, taken, cond)
    ensures cond.Val? && cond.value in homes ==> site.f.Dominates(homes[cond.value].0, at)
  {
    InputAvailable(site, homes, at, |site.f.blocks[at].ops| - 1, 1);
  }

  lemma FactTrueAtBranch(site: Site, homes: Homes, trace: seq<Moment>, taken: bool, cond: Operand,
                         facts: Facts, atom: Operand, l: nat)
    requires SsaForm(site, homes) && UnsignedConstsSmall(site.defs) && Execution(site, trace) && l < |trace| - 1
    requires cond.Val? && cond.value in homes ==> site.f.Dominates(homes[cond.value].0, trace[l].block)
    requires (Read(trace[l].env, cond) != 0) == taken && facts == Derive(site.defs, cond, taken, 0) && atom in facts
    ensures atom.Size() > 0 && facts[atom].Contains(ReadSigned(trace[l].env, atom))
  {
    ConeAt(site, homes, trace, cond, l, 0);
    DeriveSound(site.defs, cond, taken, 0, trace[l].env);
  }

  /** A fact from a settled guard is true of its value at the call. */
  lemma FactTrueAtCall(site: Site, homes: Homes, trace: seq<Moment>, at: Addr, taken: bool, cond: Operand,
                       facts: Facts, atom: Operand)
    requires SsaForm(site, homes) && UnsignedConstsSmall(site.defs) && Execution(site, trace)
    requires Guards(site, at, taken, cond) && SideSettled(site, at, taken)
    requires facts == Derive(site.defs, cond, taken, 0) && atom in facts
    ensures atom.Size() > 0 && facts[atom].Contains(ReadSigned(trace[|trace| - 1].env, atom))
  {
    var l := BranchCameOut(site, homes, trace, at, taken, cond);
    CondAvailable(site, homes, at, taken, cond);
    FactTrueAtBranch(site, homes, trace, taken, cond, facts, atom, l);
    FactAvailable(site, homes, cond, taken, at, atom);
    FactStillTrue(site, homes, trace, at, atom, facts[atom], l);
  }

  lemma FactStillTrue(site: Site, homes: Homes, trace: seq<Moment>, at: Addr, atom: Operand, range: Range, l: nat)
    requires SsaForm(site, homes) && Execution(site, trace) && l < |trace|
    requires LastAt(Path(trace)[..|trace|], at, l) && site.f.Dominates(at, trace[|trace| - 1].block)
    requires atom.Val? && atom.value in homes ==> site.f.Dominates(homes[atom.value].0, at)
    requires range.Contains(ReadSigned(trace[l].env, atom))
    ensures range.Contains(ReadSigned(trace[|trace| - 1].env, atom))
  {
    KeptToEnd(site, homes, trace, atom, at, l);
    SameReading(trace[l].env, trace[|trace| - 1].env, atom, range);
  }

  lemma KeptToEnd(site: Site, homes: Homes, trace: seq<Moment>, o: Operand, d: Addr, l: nat)
    requires SsaForm(site, homes) && Execution(site, trace) && l < |trace|
    requires LastAt(Path(trace)[..|trace|], d, l) && site.f.Dominates(d, trace[|trace| - 1].block)
    requires o.Val? && o.value in homes ==> site.f.Dominates(homes[o.value].0, d)
    ensures Read(trace[|trace| - 1].env, o) == Read(trace[l].env, o)
  {
    OperandKept(site, homes, trace, o, d, l, |trace| - 1);
  }

  lemma SameReading(was: Env, now: Env, o: Operand, range: Range)
    requires Read(now, o) == Read(was, o) && range.Contains(ReadSigned(was, o))
    ensures range.Contains(ReadSigned(now, o))
  {
  }
}
