/** The bound the branches that guard a call put on a value handed over
    (crates/e5r-api/src/dataflow.rs). */
module Guard {
  import opened Ordered
  import opened Ssa
  import opened Constraints
  import Dominators

  /** One call: the function, its definitions and dominator sets, the block the
      call is in, and how many of the block's operations come before it. */
  datatype Site = Site(f: SsaFunction, defs: Defs, doms: Dominators.Sets, block: Addr, index: nat)

  /** True when the dominator sets put a block on every path to the call. */
  predicate OnPathsTo(site: Site, b: Addr) {
    site.block in site.doms && b in site.doms[site.block]
  }

  function FirstOther(successors: seq<Addr>, target: Addr): (r: Option<Addr>)
    ensures r.Some? ==> r.value in successors && r.value != target
    ensures r.None? ==> forall s :: s in successors ==> s == target
  {
    if successors == [] then None
    else if successors[0] != target then Some(successors[0])
    else
      assert successors == [successors[0]] + successors[1..];
      FirstOther(successors[1..], target)
  }

  /** Whether the call is on the branch's taken edge or its other one: only
      when exactly one of the two successors dominates the call. */
  function Edge(site: Site, b: SsaBlock, branch: SsaOp): Option<bool> {
    if branch.inputs == [] || !branch.inputs[0].Const? then None else
    var target := branch.inputs[0].bits;
    if target !in b.successors then None else
    match FirstOther(b.successors, target)
    case None => None
    case Some(other) =>
      if OnPathsTo(site, target) && !OnPathsTo(site, other) then Some(true)
      else if !OnPathsTo(site, target) && OnPathsTo(site, other) then Some(false)
      else None
  }

  /** Only the steps that carry a bound forward: a copy, a widening, and taking
      the low part. */
  predicate Carries(op: SsaOp) {
    op.kind.Do? && op.inputs != [] &&
    (op.kind.op.Copy? || op.kind.op.IntZExt? || op.kind.op.IntSExt? ||
     (op.kind.op.SubPiece? && |op.inputs| > 1 && op.inputs[1].Const? && op.inputs[1].bits == 0))
  }

  /** The values a bound on which is taken as a bound on this one. */
  function Carriers(defs: Defs, operand: Operand, out: set<Operand>, depth: nat): set<Operand>
    decreases MAX_DEPTH + 1 - depth, operand
  {
    if depth > MAX_DEPTH || operand in out then out else
    var more := out + {operand};
    match DefOp(defs, operand)
    case None => more
    case Some(op) => if Carries(op) then Carriers(defs, op.inputs[0], more, depth + 1) else more
  }

  /** The branch at the end of a block, when the call is on one side of it. */
  function GuardAt(site: Site, at: Addr): Option<(bool, Operand)> {
    if at == site.block || at !in site.f.blocks then None else
    var b := site.f.blocks[at];
    if b.ops == [] then None else
    var last := b.ops[|b.ops| - 1];
    if last.kind != Do(CBranch) then None else
    match Edge(site, b, last)
    case None => None
    case Some(taken) => if |last.inputs| > 1 then Some((taken, last.inputs[1])) else None
  }

  /** A guarding branch: on every path to the call, with the call on one side. */
  ghost predicate Guards(site: Site, at: Addr, taken: bool, cond: Operand) {
    OnPathsTo(site, at) && GuardAt(site, at) == Some((taken, cond))
  }

  /** One fact a guarding branch gives about a carrier of the value. */
  ghost predicate Fact(site: Site, operand: Operand, at: Addr, atom: Operand, range: Range) {
    exists taken, cond :: Guards(site, at, taken, cond) && atom in Derive(site.defs, cond, taken, 0) &&
      atom in Carriers(site.defs, operand, {}, 0) && range == Derive(site.defs, cond, taken, 0)[atom]
  }

  /** Exactly the numbers every fact so far allows; nothing while there is none. */
  ghost predicate Allows(out: Option<Range>, facts: set<(Addr, Operand, Range)>) {
    (out.None? <==> facts == {}) &&
    (out.Some? ==> forall v :: out.value.Contains(v) <==> forall x :: x in facts ==> x.2.Contains(v))
  }

  function MeetOption(out: Option<Range>, range: Range): Option<Range> {
    match out
    case Some(r) => Some(r.Meet(range))
    case None => Some(range)
  }

  /** The facts the branch at the end of a block gives about carriers of the value. */
  ghost function FactsAt(site: Site, atoms: set<Operand>, at: Addr): set<(Addr, Operand, Range)> {
    match GuardAt(site, at)
    case Some((taken, cond)) => FactsOf(at, atoms, Derive(site.defs, cond, taken, 0), Derive(site.defs, cond, taken, 0).Keys)
    case None => {}
  }

  ghost function FactsOf(at: Addr, atoms: set<Operand>, facts: Facts, keys: set<Operand>): set<(Addr, Operand, Range)> {
    set atom | atom in keys && atom in facts && atom in atoms :: (at, atom, facts[atom])
  }

  /** Fold in what one branch says, one value at a time. */
  method FoldFacts(at: Addr, atoms: set<Operand>, facts: Facts, was: Option<Range>, ghost known: set<(Addr, Operand, Range)>)
    returns (out: Option<Range>)
    requires Allows(was, known)
    ensures Allows(out, known + FactsOf(at, atoms, facts, facts.Keys))
  {
    out := was;
    var left := facts.Keys;
    ghost var done: set<Operand> := {};
    while left != {}
      invariant left <= facts.Keys && done == facts.Keys - left
      invariant Allows(out, known + FactsOf(at, atoms, facts, done))
      decreases |left|
    {
      var atom :| atom in left;
      left := left - {atom};
      FactsOfStep(at, atoms, facts, done, atom);
      if atom in atoms {
        AllowsStep(out, known + FactsOf(at, atoms, facts, done), (at, atom, facts[atom]));
        out := MeetOption(out, facts[atom]);
      }
      done := done + {atom};
    }
  }

  lemma FactsOfStep(at: Addr, atoms: set<Operand>, facts: Facts, done: set<Operand>, atom: Operand)
    requires atom in facts
    ensures FactsOf(at, atoms, facts, done + {atom}) ==
      FactsOf(at, atoms, facts, done) + if atom in atoms then {(at, atom, facts[atom])} else {}
  {
  }

  lemma AllowsStep(out: Option<Range>, facts: set<(Addr, Operand, Range)>, x: (Addr, Operand, Range))
    requires Allows(out, facts)
    ensures Allows(MeetOption(out, x.2), facts + {x})
  {
    var now, all := MeetOption(out, x.2).value, facts + {x};
    assert x in all;
    forall v ensures now.Contains(v) <==> forall y :: y in all ==> y.2.Contains(v) {
      assert now.Contains(v) <==> x.2.Contains(v) && (out.Some? ==> out.value.Contains(v));
      if forall y :: y in all ==> y.2.Contains(v) {
        assert forall y :: y in facts ==> y in all;
      }
    }
  }

  /** All the facts the guarding branches listed give. */
  ghost function FactsFrom(site: Site, atoms: set<Operand>, order: seq<Addr>): set<(Addr, Operand, Range)> {
    if order == [] then {} else
    FactsFrom(site, atoms, order[..|order| - 1]) + FactsAt(site, atoms, order[|order| - 1])
  }

  /** The bound the comparisons that guard the call put on a value. */
  method Bound(site: Site, operand: Operand) returns (out: Option<Range>)
    ensures |site.f.blocks| > Dominators.MAX_BLOCKS_FOR_GUARDS || site.block !in site.doms ==> out == None
    ensures |site.f.blocks| <= Dominators.MAX_BLOCKS_FOR_GUARDS && site.block in site.doms ==>
      Allows(out, FactsFrom(site, Carriers(site.defs, operand, {}, 0), Sorted(site.doms[site.block])))
  {
    out := None;
    if |site.f.blocks| > Dominators.MAX_BLOCKS_FOR_GUARDS || site.block !in site.doms {
      return;
    }
    var atoms := Carriers(site.defs, operand, {}, 0);
    var order := Sorted(site.doms[site.block]);
    for k := 0 to |order|
      invariant Allows(out, FactsFrom(site, atoms, order[..k]))
    {
      FactsFromStep(site, atoms, order, k);
      match GuardAt(site, order[k]) {
        case Some((taken, cond)) =>
          out := FoldFacts(order[k], atoms, Derive(site.defs, cond, taken, 0), out, FactsFrom(site, atoms, order[..k]));
        case None =>
      }
    }
    assert order[..|order|] == order;
  }

  lemma FactsFromStep(site: Site, atoms: set<Operand>, order: seq<Addr>, k: nat)
    requires k < |order|
    ensures FactsFrom(site, atoms, order[..k + 1]) == FactsFrom(site, atoms, order[..k]) + FactsAt(site, atoms, order[k])
  {
    assert order[..k + 1][..k] == order[..k];
  }

  /** The facts behind the bound are exactly those the guarding branches on the
      paths to the call give about carriers of the value. */
  lemma {:induction false} FactsFromMember(site: Site, operand: Operand, order: seq<Addr>, x: (Addr, Operand, Range))
    requires forall at :: at in order ==> OnPathsTo(site, at)
    ensures x in FactsFrom(site, Carriers(site.defs, operand, {}, 0), order) <==>
      x.0 in order && Fact(site, operand, x.0, x.1, x.2)
  {
    if order != [] {
      var less, last := order[..|order| - 1], order[|order| - 1];
      FactsFromMember(site, operand, less, x);
      assert x.0 in order <==> x.0 in less || x.0 == last;
      FactsAtMember(site, operand, last, x);
    }
  }

  lemma FactsAtMember(site: Site, operand: Operand, at: Addr, x: (Addr, Operand, Range))
    requires OnPathsTo(site, at)
    ensures x in FactsAt(site, Carriers(site.defs, operand, {}, 0), at) <==>
      x.0 == at && Fact(site, operand, at, x.1, x.2)
  {
    var atoms := Carriers(site.defs, operand, {}, 0);
    match GuardAt(site, at)
    case None =>
    case Some((taken, cond)) =>
      assert Guards(site, at, taken, cond);
      var facts := Derive(site.defs, cond, taken, 0);
      assert x in FactsOf(at, atoms, facts, facts.Keys) <==>
        x.0 == at && x.1 in facts && x.1 in atoms && x.2 == facts[x.1];
  }
}
