/** The bound itself: from the facts at the branches to the value handed over
    (crates/e5r-api/src/dataflow.rs). */
module GuardBound {
  import opened Ordered
  import opened Ssa
  import opened Constraints
  import opened Guard
  import opened Paths
  import opened GuardTheorem
  import opened Carrying
  import opened Arith
  import Dominators

  // -------------------------------------------------------------- the theorem

  lemma DominanceAntisymmetric(f: SsaFunction, a: Addr, b: Addr, path: seq<Addr>)
    requires f.EntryPath(path, b) && f.Dominates(a, b) && f.Dominates(b, a)
    ensures a == b
  {
    var i := FirstExists(path, a);
    EntryPrefix(f, path, b, i);
    var j := FirstExists(path[..i + 1], b);
    EntryPrefix(f, path, b, j);
    assert a in path[..j + 1];
  }

  /** What defines an available operand is itself built from available operands. */
  lemma InputStaysAvailable(site: Site, homes: Homes, trace: seq<Moment>, v: Value, i: nat)
    requires SsaForm(site, homes) && Execution(site, trace) && v in homes
    requires Available(site.f, homes, Val(v), site.block, site.index)
    requires site.defs[v].kind.Do? && i < |site.defs[v].inputs|
    ensures Available(site.f, homes, site.defs[v].inputs[i], site.block, site.index)
  {
    var (d, j) := homes[v];
    var o := site.defs[v].inputs[i];
    InputAvailable(site, homes, d, j, i);
    InputDominates(site, homes, o, d, j, site.block);
    if o.Val? && o.value in homes && homes[o.value].0 == site.block {
      DominanceAntisymmetric(site.f, d, site.block, Path(trace));
    }
  }

  lemma {:induction false} ChainAtCall(site: Site, homes: Homes, trace: seq<Moment>, operand: Operand, depth: nat)
    requires SsaForm(site, homes) && Execution(site, trace)
    requires Available(site.f, homes, operand, site.block, site.index)
    ensures ChainHolds(site.defs, operand, trace[|trace| - 1].env, depth)
    decreases MAX_DEPTH + 1 - depth
  {
    if depth <= MAX_DEPTH && DefOp(site.defs, operand).Some? && Carries(DefOp(site.defs, operand).value) {
      var v := operand.value;
      LastIsSite(site, trace);
      DefinitionHolds(site, homes, trace, v, |trace| - 1);
      InputStaysAvailable(site, homes, trace, v, 0);
      ChainAtCall(site, homes, trace, site.defs[v].inputs[0], depth + 1);
    }
  }

  lemma LastIsSite(site: Site, trace: seq<Moment>)
    requires Execution(site, trace)
    ensures trace != [] && trace[|trace| - 1].block == site.block
  {
    assert Path(trace)[|trace| - 1] == site.block;
  }

  /** Wherever a guarding branch gives a fact about a carrier, the branch is on a
      settled side, and the fact survives the steps down to the operand. */
  ghost predicate Usable(site: Site, operand: Operand) {
    forall at, taken, cond, atom :: Guards(site, at, taken, cond) && Gives(site, operand, taken, cond, atom) ==>
      Comes(site, operand, at, taken, atom, Derive(site.defs, cond, taken, 0)[atom])
  }

  ghost predicate Comes(site: Site, operand: Operand, at: Addr, taken: bool, atom: Operand, range: Range) {
    SideSettled(site, at, taken) && Passes(site.defs, operand, atom, range, 0)
  }

  ghost predicate Gives(site: Site, operand: Operand, taken: bool, cond: Operand, atom: Operand) {
    atom in Derive(site.defs, cond, taken, 0) && atom in Carriers(site.defs, operand, {}, 0)
  }

  lemma FactGuard(site: Site, operand: Operand, at: Addr, atom: Operand, range: Range) returns (taken: bool, cond: Operand)
    requires Fact(site, operand, at, atom, range)
    ensures Guards(site, at, taken, cond) && Gives(site, operand, taken, cond, atom)
    ensures range == Derive(site.defs, cond, taken, 0)[atom]
  {
    taken, cond :| Guards(site, at, taken, cond) && Gives(site, operand, taken, cond, atom) &&
      range == Derive(site.defs, cond, taken, 0)[atom];
  }

  lemma UsableHere(site: Site, operand: Operand, at: Addr, taken: bool, cond: Operand, atom: Operand)
    requires Usable(site, operand) && Guards(site, at, taken, cond) && Gives(site, operand, taken, cond, atom)
    ensures Comes(site, operand, at, taken, atom, Derive(site.defs, cond, taken, 0)[atom])
  {
  }

  lemma FactBoundsOperand(site: Site, homes: Homes, trace: seq<Moment>, operand: Operand, at: Addr, atom: Operand, range: Range)
    requires SsaForm(site, homes) && UnsignedConstsSmall(site.defs) && Execution(site, trace)
    requires Available(site.f, homes, operand, site.block, site.index) && Usable(site, operand)
    requires Fact(site, operand, at, atom, range)
    ensures range.Contains(ReadSigned(trace[|trace| - 1].env, operand))
  {
    var taken, cond := FactGuard(site, operand, at, atom, range);
    UsableHere(site, operand, at, taken, cond, atom);
    FactTrueAtCall(site, homes, trace, at, taken, cond, Derive(site.defs, cond, taken, 0), atom);
    ChainAtCall(site, homes, trace, operand, 0);
    CarrySound(site.defs, operand, atom, range, trace[|trace| - 1].env, 0);
  }

  /** The guard theorem: in every execution that reaches the call, the value
      handed over, read as signed, is inside the bound the guards gave. */
  lemma BoundSound(site: Site, homes: Homes, trace: seq<Moment>, operand: Operand, out: Option<Range>)
    requires SsaForm(site, homes) && UnsignedConstsSmall(site.defs) && Execution(site, trace)
    requires Available(site.f, homes, operand, site.block, site.index) && Usable(site, operand)
    requires Allows(out, FactsFrom(site, Carriers(site.defs, operand, {}, 0), Sorted(site.doms[site.block])))
    requires out.Some?
    ensures out.value.Contains(ReadSigned(trace[|trace| - 1].env, operand))
  {
    var order := Sorted(site.doms[site.block]);
    var facts := FactsFrom(site, Carriers(site.defs, operand, {}, 0), order);
    forall x | x in facts ensures x.2.Contains(ReadSigned(trace[|trace| - 1].env, operand)) {
      FactsFromMember(site, operand, order, x);
      FactBoundsOperand(site, homes, trace, operand, x.0, x.1, x.2);
    }
  }

  // ------------------------------------------------- where the side is wrong

  /** What is tested and then handed over: it came in from outside. */
  function Given(): Operand {
    Undefined(Location(0, 0, 8))
  }

  function Small(): Value {
    Value(Location(1, 0, 1), 0)
  }

  /** `x < 5`, read signed. */
  function Test(): SsaOp {
    SsaOp(Do(IntSLess), Some(Small()), [Given(), Const(5, 8)])
  }

  function Fork(): SsaOp {
    SsaOp(Do(CBranch), None, [Const(1, 8), Val(Small())])
  }

  /** The entry 0 tests `x < 5` and branches to 1 when it holds, to 2 when not; 2
      goes on to 1; the call is in 3. */
  function JoinFunction(): SsaFunction {
    SsaFunction(0, map[
      0 := SsaBlock([Test(), Fork()], [1, 2], []), 1 := SsaBlock([], [3], [0, 2]),
      2 := SsaBlock([], [1], [0]), 3 := SsaBlock([], [], [1])])
  }

  ghost predicate JoinSite(site: Site) {
    site.f == JoinFunction() && site.defs == map[Small() := Test()] && site.block == 3 && site.index == 0 &&
    Dominators.Computed(site.f, site.doms)
  }

  /** When the chosen successor is also a join, it dominates the call while the
      branch may last have gone the other way: the claim about the side fails. */
  lemma JoinMisleads(site: Site)
    requires JoinSite(site)
    ensures Guards(site, 0, true, Val(Small()))
    ensures !LastLeavesBy(site.f, 0, 1, 3)
  {
    var f := JoinFunction();
    JoinDominators(f);
    assert site.f.Edge(0, 2) && site.f.Edge(2, 1) && site.f.Edge(1, 3);
    var path := [0, 2, 1, 3];
    assert f.EntryPath(path, 3) && LastAt(path, 0, 0) && path[0 + 1] == 2;
  }

  /** The value handed over is a hundred throughout, and the test fails. */
  function Hundred(): Env {
    Env(v => 0, l => 100)
  }

  function Way(): seq<Moment> {
    [Moment(0, Hundred()), Moment(2, Hundred()), Moment(1, Hundred()), Moment(3, Hundred())]
  }

  lemma HundredReads()
    ensures ReadSigned(Hundred(), Given()) == 100 && ReadSigned(Hundred(), Const(5, 8)) == 5
    ensures Read(Hundred(), Val(Small())) == 0 && Signed(5, 8) == 5
  {
    var n: nat := Bits(8);
    FiveReads();
    Pow2Grows(7, n - 1);
    PowHalf(n);
    ModSmall(100, Pow2(n));
    ConstReads(Hundred(), Const(5, 8));
  }

  lemma WayRuns(site: Site)
    requires JoinSite(site)
    ensures Execution(site, Way())
  {
    var f := JoinFunction();
    assert f.Edge(0, 2) && f.Edge(2, 1) && f.Edge(1, 3);
    assert Path(Way()) == [0, 2, 1, 3];
    EntryLeaves();
  }

  /** The entry is executed, and its branch goes to 2. */
  lemma EntryLeaves()
    ensures var b := BlockAt(JoinFunction(), 0); Executed(b, |b.ops|, Hundred()) && Branches(b, Hundred(), 2)
  {
    var b := BlockAt(JoinFunction(), 0);
    TestFails();
    assert b.ops == [Test(), Fork()];
    assert Holds(b.ops[1], Hundred());
  }

  lemma TestFails()
    ensures Holds(Test(), Hundred()) && Read(Hundred(), Val(Small())) == 0
  {
    HundredReads();
  }

  /** The function is in single-assignment form, every value defined where it says. */
  lemma JoinForm(site: Site)
    requires JoinSite(site)
    ensures SsaForm(site, map[Small() := (0, 0)])
  {
    assert site.f.Dominates(0, 0);
  }

  /** And a bound drawn from it is wrong: it is below five, while an execution that
      reaches the call hands over a hundred. */
  lemma JoinMisbounds(site: Site, out: Option<Range>)
    requires JoinSite(site)
    requires Allows(out, FactsFrom(site, Carriers(site.defs, Given(), {}, 0), Sorted(site.doms[site.block])))
    ensures SsaForm(site, map[Small() := (0, 0)]) && Execution(site, Way())
    ensures out.Some? && !out.value.Contains(ReadSigned(Way()[|Way()| - 1].env, Given()))
  {
    JoinForm(site);
    JoinMisleads(site);
    WayRuns(site);
    HundredReads();
    TestGives(site);
    var fact := (0, Given(), Range(I64_MIN, 4));
    FactsFromMember(site, Given(), Sorted(site.doms[site.block]), fact);
  }

  lemma TestDerives(defs: Defs, depth: nat)
    requires Small() in defs && defs[Small()] == Test() && depth <= MAX_DEPTH
    ensures Derive(defs, Val(Small()), true, depth) == Only(Given(), Range(I64_MIN, 4))
  {
    FiveReads();
  }

  lemma TestGives(site: Site)
    requires JoinSite(site) && Guards(site, 0, true, Val(Small()))
    ensures Fact(site, Given(), 0, Given(), Range(I64_MIN, 4))
  {
    TestDerives(site.defs, 0);
    assert Given() in Carriers(site.defs, Given(), {}, 0);
  }

  lemma JoinRoot(f: SsaFunction, a: Ssa.Addr)
    requires f == JoinFunction() && f.Root(a)
    ensures a == 0
  {
    assert forall b :: b in f.blocks && b != 0 ==> f.blocks[b].predecessors[0] in f.blocks;
  }

  lemma JoinDominators(f: SsaFunction)
    requires f == JoinFunction()
    ensures f.OnEveryPath(0, 3) && f.OnEveryPath(1, 3) && !f.OnEveryPath(2, 3)
  {
    forall path | f.PathFromRoot(path, 3) ensures 0 in path && 1 in path {
      JoinRoot(f, path[0]);
      assert path[0] in path && |path| > 1;
      var before := path[|path| - 2];
      assert f.Edge(before, path[|path| - 1]);
      assert before == 1 && before in path && 0 in path;
    }
    var direct := [0, 1, 3];
    assert f.Edge(0, 1) && f.Edge(1, 3);
    assert f.Root(0) && direct[0] == 0 && direct[1] == 1 && direct[2] == 3;
    assert f.PathFromRoot(direct, 3) && 2 !in direct;
  }
}
