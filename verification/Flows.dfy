/** Where control goes, said of each kind of instruction by itself, and what a
    walk's blocks say of it (crates/e5r-analysis/src/cfg.rs). */
module Flows {
  import opened Ordered
  import opened Image
  import opened Walk
  import opened Blocks
  import opened WalkTheorems
  import opened Tiling

  // ------------------------------------------------------------------ the flow relation

  /** Control at `a` can come to `b` next. What does not branch comes to the next
      instruction; a branch comes only to executable memory, and not to another
      function. */
  ghost predicate Goes(job: Job, a: Addr, b: Addr) {
    a in job.p.code && a !in job.data &&
    var next := a + job.p.code[a].len;
    match job.p.code[a].flow
    case Next => b == next
    case IndirectCall => b == next
    case Syscall => b == next
    case Call(t) => b == next && t !in job.noreturn
    case Branch(t) => b == t && Inside(job, t) && b in job.p.exec
    case CondBranch(t) => (b == next || (b == t && Inside(job, t))) && b in job.p.exec
    case IndirectBranch => a in job.p.tables && b in job.p.tables[a] && b in job.p.exec
    case Return => false
    case Trap => false
  }

  /** Not the entry of another function. */
  ghost predicate Inside(job: Job, t: Addr) {
    t in job.stopAt ==> t == job.entry
  }

  /** Some course of control leads here from the entry. */
  ghost predicate Arrives(job: Job, a: Addr) {
    exists path :: Course(job, path) && path[|path| - 1] == a
  }

  ghost predicate Course(job: Job, path: seq<Addr>) {
    path != [] && path[0] == job.entry && forall k :: 0 <= k < |path| - 1 ==> Goes(job, path[k], path[k + 1])
  }

  /** The flow steps a walk takes are exactly these. */
  lemma StepIff(job: Job, a: Addr, b: Addr)
    requires job.p.Valid()
    ensures job.Step(a, b) <==> Goes(job, a, b)
  {
  }

  lemma ReachableIff(job: Job, a: Addr)
    requires job.p.Valid()
    ensures job.Reachable(a) <==> Arrives(job, a)
  {
    forall x: Addr, y: Addr ensures job.Step(x, y) <==> Goes(job, x, y) {
      StepIff(job, x, y);
    }
    if job.Reachable(a) {
      var path :| job.IsPath(path) && path[|path| - 1] == a;
      assert Course(job, path);
    }
    if Arrives(job, a) {
      var path :| Course(job, path) && path[|path| - 1] == a;
      assert job.IsPath(path);
    }
  }

  // ------------------------------------------------------------------ what a walk gives

  /** No two instructions control comes to share a byte. */
  ghost predicate Apart(job: Job) {
    forall a: Addr, b: Addr :: ComesTo(job, a) && ComesTo(job, b) && a < b ==> a + job.p.code[a].len <= b
  }

  /** Control comes to an instruction here. */
  ghost predicate ComesTo(job: Job, a: Addr)
    ensures ComesTo(job, a) ==> a in job.p.code
  {
    Arrives(job, a) && a in job.p.code && a !in job.data
  }

  lemma ApartIff(job: Job)
    requires job.p.Valid()
    ensures Apart(job) <==> job.NoOverlap()
  {
    forall a: Addr ensures job.Reachable(a) <==> Arrives(job, a) {
      ReachableIff(job, a);
    }
    if job.NoOverlap() {
      forall a: Addr, b: Addr | ComesTo(job, a) && ComesTo(job, b) && a < b ensures a + job.p.code[a].len <= b {
        assert job.Decodable(a) && job.Decodable(b);
      }
    }
    if Apart(job) {
      forall a: Addr, b: Addr | job.Reachable(a) && job.Decodable(a) && job.Reachable(b) && job.Decodable(b) && a < b
        ensures job.p.code[a].End() <= b
      {
        assert ComesTo(job, a) && ComesTo(job, b);
      }
    }
  }

  /** A complete walk of an image whose instructions do not overlap holds in its
      blocks exactly the instructions control comes to. */
  lemma HoldsWhatArrives(w: Trip)
    requires Finished(w) && Apart(w.job)
    ensures forall a: Addr :: Tiles(w.job.p, w.raw.blocks, a) <==> Arrives(w.job, a)
  {
    ApartIff(w.job);
    CompleteTilesReachable(w.job, w.caps, w.raw, w.ends, w.bodies);
    forall a: Addr ensures Tiles(w.job.p, w.raw.blocks, a) <==> Arrives(w.job, a) {
      ReachableIff(w.job, a);
    }
  }

  // ------------------------------------------------------------------ how blocks end

  ghost function LastOf(p: Program, b: Block): (i: Insn)
    requires p.Valid() && Stream(p, b.range.start, b.range.end) != []
  {
    var insns := Stream(p, b.range.start, b.range.end);
    insns[|insns| - 1]
  }

  /** A block says of its last instruction what the instruction's kind says. */
  ghost predicate Says(job: Job, b: Block, i: Insn) {
    match i.flow
    case Next => Links(b, {b.range.end}, Terminator.Flow)
    case IndirectCall => Links(b, {b.range.end}, Terminator.Flow)
    case Syscall => Links(b, {b.range.end}, Terminator.Flow)
    case Call(t) =>
      if t in job.noreturn then Links(b, {}, NoReturnCall) else Links(b, {b.range.end}, Terminator.Flow)
    case Return => Links(b, {}, Terminator.Return)
    case Trap => Links(b, {}, Terminator.Trap)
    case Branch(t) =>
      if Inside(job, t) then Links(b, {t}, Terminator.Flow)
      else Links(b, {}, if t in job.noreturn then NoReturnCall else TailCall)
    case CondBranch(t) => Links(b, {b.range.end} + (if Inside(job, t) then {t} else {}), Terminator.Flow)
    case IndirectBranch =>
      if i.addr in job.p.tables then Links(b, Elems(job.p.tables[i.addr]), Terminator.Flow) else GivenUp(b)
  }

  /** Each successor once, in address order. */
  ghost predicate Links(b: Block, to: set<Addr>, term: Terminator) {
    Ascending(b.successors) && Elems(b.successors) == to && b.terminator == term && !b.unresolved
  }

  ghost predicate GivenUp(b: Block) {
    b.successors == [] && b.terminator == Unresolved && b.unresolved
  }

  /** Control would go on with the next instruction. */
  ghost predicate Proceeds(job: Job, i: Insn) {
    i.flow.Next? || i.flow.IndirectCall? || i.flow.Syscall? || (i.flow.Call? && i.flow.target !in job.noreturn)
  }

  /** However a walk stopped, a block that ends where its last instruction does says
      what that instruction's kind says, unless the walk was cut off there. */
  lemma BlockSays(w: Trip, i: nat)
    requires w.job.p.Valid() && Result(w.job, w.caps, w.raw, w.ends, w.bodies) && i < |w.raw.blocks|
    ensures Stream(w.job.p, w.raw.blocks[i].range.start, w.raw.blocks[i].range.end) != []
    ensures var b := w.raw.blocks[i];
      var last := LastOf(w.job.p, b);
      last.addr + last.len == b.range.end ==>
        Says(w.job, b, last) || (w.raw.halt != Complete && GivenUp(b) && Proceeds(w.job, last))
  {
    var s, n := BlockStream(w.job, w.caps, w.raw, w.ends, w.bodies, i);
    LastOfPiece(w.job.p, w.raw.blocks[i], w.bodies[s], n);
    PieceSays(w.job, w.ends, s, w.bodies[s], n, w.raw.halt);
  }

  lemma PieceSays(job: Job, ends: map<Addr, Ending>, s: Addr, body: seq<Insn>, n: nat, halt: Halt)
    requires job.p.Valid() && s in ends && 0 < n <= |body| && RunOk(job, s, body, ends[s], ends.Keys, halt)
    requires Ascending(ends[s].succs)
    ensures var b, last := SplitBlock(job.p, ends, s), body[n - 1];
      last.addr + last.len == b.range.end ==>
        Says(job, b, last) || (halt != Complete && GivenUp(b) && Proceeds(job, last))
  {
    if body[n - 1].End() == SplitBlock(job.p, ends, s).range.end {
      if n < |body| {
        MidRunSays(job, ends, s, body, n);
      } else {
        EndSays(job, ends, s, body, halt);
      }
    }
  }

  /** A run cut in two falls through to the cut. */
  lemma MidRunSays(job: Job, ends: map<Addr, Ending>, s: Addr, body: seq<Insn>, n: nat)
    requires job.p.Valid() && s in ends && Chain(job, s, body) && 0 < n < |body| && ends[s].end == EndOf(s, body)
    requires SplitBlock(job.p, ends, s).range.end == body[n - 1].End()
    ensures Says(job, SplitBlock(job.p, ends, s), body[n - 1])
  {
    RunAscends(job, s, body);
    assert body[n - 1].End() <= body[n].addr < EndOf(s, body);
    assert job.Falls(body[n - 1]);
    SingleAscends(body[n - 1].End());
  }

  lemma SingleAscends(a: Addr)
    ensures Ascending([a]) && Elems([a]) == {a}
  {
    assert [a][0] == a;
  }

  /** A run that was not cut says how it ended. */
  lemma EndSays(job: Job, ends: map<Addr, Ending>, s: Addr, body: seq<Insn>, halt: Halt)
    requires job.p.Valid() && s in ends && body != [] && RunOk(job, s, body, ends[s], ends.Keys, halt)
    requires SplitBlock(job.p, ends, s).range.end == body[|body| - 1].End() && Ascending(ends[s].succs)
    ensures var b, last := SplitBlock(job.p, ends, s), body[|body| - 1];
      Says(job, b, last) || (halt != Complete && GivenUp(b) && Proceeds(job, last))
  {
    var b, e, last := SplitBlock(job.p, ends, s), ends[s], body[|body| - 1];
    assert Cut(ends, s) == None;
    SingleAscends(last.End());
    if Exited(job, s, body, e) {
      ExitSays(job, b, last);
    }
  }

  lemma ExitSays(job: Job, b: Block, last: Insn)
    requires !job.Falls(last) && Ascending(b.successors) && Elems(b.successors) == Elems(job.Exits(last))
    requires b.unresolved == job.Unfollowed(last) && b.terminator == job.EndsAs(last) && b.range.end == last.End()
    ensures Says(job, b, last)
  {
    match last.flow
    case Branch(t) => SingleAscends(t);
    case CondBranch(t) => PairElems(t, last.End());
    case _ =>
    NoneListed(b.successors);
  }

  lemma PairElems(a: Addr, b: Addr)
    ensures Elems([a, b]) == {b} + {a} && Elems([b]) == {b} + {}
  {
    assert [a, b][0] == a && [a, b][1] == b && [b][0] == b;
  }

  lemma NoneListed(xs: seq<Addr>)
    ensures Elems(xs) == {} <==> xs == []
  {
    if xs != [] {
      assert xs[0] in Elems(xs);
    }
  }

  /** After a complete walk of an image whose instructions do not overlap every
      block ends where its last instruction does. */
  lemma EndsClean(w: Trip, i: nat)
    requires Finished(w) && Apart(w.job) && i < |w.raw.blocks|
    requires Stream(w.job.p, w.raw.blocks[i].range.start, w.raw.blocks[i].range.end) != []
    ensures var last := LastOf(w.job.p, w.raw.blocks[i]); last.addr + last.len == w.raw.blocks[i].range.end
  {
    var s, n := LastPiece(w, i);
    ApartIff(w.job);
    CleanEnd(w.job, w.ends, w.bodies, s, n, w.raw.blocks[i].range.end);
  }

  /** The last instruction of a block, in the run the block is cut from. */
  lemma LastPiece(w: Trip, i: nat) returns (s: Addr, n: nat)
    requires Finished(w) && i < |w.raw.blocks|
    requires Stream(w.job.p, w.raw.blocks[i].range.start, w.raw.blocks[i].range.end) != []
    ensures CompleteRuns(w.job, w.ends, w.bodies) && s in w.ends && 0 < n <= |w.bodies[s]|
    ensures LastOf(w.job.p, w.raw.blocks[i]) == w.bodies[s][n - 1]
    ensures var c := w.raw.blocks[i].range.end;
      c <= w.ends[s].end && (c == w.ends[s].end || c in w.ends) &&
      forall j :: 0 <= j < |w.bodies[s]| ==> (w.bodies[s][j].addr < c <==> j < n)
  {
    s, n := BlockStream(w.job, w.caps, w.raw, w.ends, w.bodies, i);
    LastOfPiece(w.job.p, w.raw.blocks[i], w.bodies[s], n);
  }

  lemma LastOfPiece(p: Program, b: Block, body: seq<Insn>, n: nat)
    requires p.Valid() && 0 < n <= |body| && Stream(p, b.range.start, b.range.end) == body[..n]
    ensures Stream(p, b.range.start, b.range.end) != [] && LastOf(p, b) == body[n - 1]
  {
    assert |body[..n]| == n && body[..n][n - 1] == body[n - 1];
  }

  lemma CleanEnd(job: Job, ends: map<Addr, Ending>, bodies: map<Addr, seq<Insn>>, s: Addr, n: nat, c: Addr)
    requires job.p.Valid() && CompleteRuns(job, ends, bodies) && job.NoOverlap() && s in ends && 0 < n <= |bodies[s]|
    requires forall j :: 0 <= j < |bodies[s]| ==> (bodies[s][j].addr < c <==> j < n)
    requires c <= ends[s].end && (c == ends[s].end || c in ends)
    ensures bodies[s][n - 1].End() == c
  {
    StartDecodes(job, ends, bodies, s);
    if c in ends {
      StartDecodes(job, ends, bodies, c);
    }
    CleanCut(job, s, bodies[s], n, c);
  }

  /** Where no instructions overlap, a place control comes to is not inside one. */
  lemma CleanCut(job: Job, s: Addr, body: seq<Insn>, n: nat, c: Addr)
    requires job.p.Valid() && Chain(job, s, body) && job.Reachable(s) && job.NoOverlap() && 0 < n <= |body|
    requires forall j :: 0 <= j < |body| ==> (body[j].addr < c <==> j < n)
    requires c <= EndOf(s, body) && (c == EndOf(s, body) || (job.Reachable(c) && job.Decodable(c)))
    ensures body[n - 1].End() == c
  {
    RunReachable(job, s, body, n - 1);
    RunAscends(job, s, body);
    var last := body[n - 1];
    assert last == job.p.code[last.addr] && last.addr < c;
    if c == EndOf(s, body) {
      assert n == |body|;
    } else if n < |body| {
      assert body[n].addr == last.End();
    }
  }

  /** Every block of a complete walk of an image whose instructions do not overlap
      says what its last instruction's kind says. */
  lemma EveryBlockSays(w: Trip, i: nat)
    requires Finished(w) && Apart(w.job) && i < |w.raw.blocks|
    ensures Stream(w.job.p, w.raw.blocks[i].range.start, w.raw.blocks[i].range.end) != []
    ensures Says(w.job, w.raw.blocks[i], LastOf(w.job.p, w.raw.blocks[i]))
  {
    BlockSays(w, i);
    EndsClean(w, i);
  }

  // ------------------------------------------------------------------ calls

  /** An instruction calls: a direct call, or a branch to another function. */
  ghost predicate CallsTo(job: Job, a: Addr, t: Addr) {
    a in job.p.code &&
    match job.p.code[a].flow
    case Call(to) => to == t
    case Branch(to) => to == t && !Inside(job, t)
    case CondBranch(to) => to == t && !Inside(job, t)
    case _ => false
  }

  lemma CallsToIff(job: Job, a: Addr, t: Addr)
    ensures CallsTo(job, a, t) <==> a in job.p.code && t in job.CallsOf(job.p.code[a])
  {
  }

  /** The calls of a complete walk are exactly those of the instructions control
      comes to, and it gave up on a branch exactly when control comes to an indirect
      one with no table. */
  lemma CallsWhatArrives(w: Trip, t: Addr)
    requires Finished(w)
    ensures t in w.raw.calls <==> exists a :: Arrives(w.job, a) && CallsTo(w.job, a, t)
    ensures w.raw.hasIndirect <==> exists a :: Arrives(w.job, a) && NoTable(w.job, a)
  {
    CallsExact(w.job, w.caps, w.raw, w.ends, w.bodies, t);
    if t in w.raw.calls {
      var a :| w.job.Reachable(a) && a in w.job.p.code && t in w.job.CallsOf(w.job.p.code[a]);
      ReachableIff(w.job, a);
      CallsToIff(w.job, a, t);
    }
    if a :| Arrives(w.job, a) && CallsTo(w.job, a, t) {
      ReachableIff(w.job, a);
      CallsToIff(w.job, a, t);
    }
    IndirectIff(w);
  }

  lemma IndirectIff(w: Trip)
    requires Finished(w)
    ensures w.raw.hasIndirect <==> exists a :: Arrives(w.job, a) && NoTable(w.job, a)
  {
    if w.raw.hasIndirect {
      var s :| s in w.bodies && EndsUnfollowed(w.job, w.bodies[s]);
      var a := UnfollowedArrives(w.job, w.ends, w.bodies, s);
    }
    if a :| Arrives(w.job, a) && NoTable(w.job, a) {
      var s := ArrivesUnfollowed(w.job, w.ends, w.bodies, a);
    }
  }

  lemma UnfollowedArrives(job: Job, ends: map<Addr, Ending>, bodies: map<Addr, seq<Insn>>, s: Addr) returns (a: Addr)
    requires job.p.Valid() && CompleteRuns(job, ends, bodies) && s in bodies && EndsUnfollowed(job, bodies[s])
    ensures Arrives(job, a) && NoTable(job, a)
  {
    StartDecodes(job, ends, bodies, s);
    a := UnfollowedLast(job, s, bodies[s]);
    ReachableIff(job, a);
  }

  lemma UnfollowedLast(job: Job, s: Addr, body: seq<Insn>) returns (a: Addr)
    requires job.p.Valid() && Chain(job, s, body) && EndsUnfollowed(job, body) && job.Reachable(s)
    ensures job.Reachable(a) && NoTable(job, a)
  {
    var last := body[|body| - 1];
    a := last.addr;
    RunReachable(job, s, body, |body| - 1);
    assert last == job.p.code[a];
  }

  lemma ArrivesUnfollowed(job: Job, ends: map<Addr, Ending>, bodies: map<Addr, seq<Insn>>, a: Addr) returns (s: Addr)
    requires job.p.Valid() && CompleteRuns(job, ends, bodies) && Arrives(job, a) && NoTable(job, a)
    ensures s in bodies && EndsUnfollowed(job, bodies[s])
  {
    ReachableIff(job, a);
    CompleteDecodesReachable(job, ends, bodies, a);
    s :| InRun(bodies, s, a);
    var k :| 0 <= k < |bodies[s]| && bodies[s][k].addr == a;
    StartDecodes(job, ends, bodies, s);
    NotMidRun(job, s, bodies[s], k, a);
  }

  lemma NotMidRun(job: Job, s: Addr, body: seq<Insn>, k: nat, a: Addr)
    requires Chain(job, s, body) && k < |body| && body[k].addr == a && NoTable(job, a)
    ensures EndsUnfollowed(job, body)
  {
    assert body[k] == job.p.code[a] && !job.Falls(body[k]);
    assert k == |body| - 1;
  }

  ghost predicate NoTable(job: Job, a: Addr) {
    a in job.p.code && job.p.code[a].flow.IndirectBranch? && a !in job.p.tables
  }

  /** Whatever stopped the walk, an instruction of a block calls what its kind says. */
  lemma TileCalls(w: Trip, a: Addr, t: Addr)
    requires w.job.p.Valid() && Result(w.job, w.caps, w.raw, w.ends, w.bodies)
    requires Tiles(w.job.p, w.raw.blocks, a) && CallsTo(w.job, a, t)
    ensures t in w.raw.calls
  {
    TilesExactly(w.job, w.caps, w.raw, w.ends, w.bodies, a);
    var s :| Kept(w.ends, w.bodies, s, a);
    var k :| 0 <= k < |w.bodies[s]| && w.bodies[s][k].addr == a;
    assert RunOk(w.job, s, w.bodies[s], w.ends[s], w.ends.Keys, w.raw.halt);
    RunCalls(w.job, s, w.bodies[s], k, t);
  }

  lemma RunCalls(job: Job, s: Addr, body: seq<Insn>, k: nat, t: Addr)
    requires Chain(job, s, body) && k < |body| && CallsTo(job, body[k].addr, t)
    ensures t in CallsIn(job, body)
  {
    CallsInMember(job, body, t);
    CallsToIff(job, body[k].addr, t);
  }

  /** Every instruction of a block but the last goes on. */
  lemma InnerGoesOn(w: Trip, i: nat, k: nat)
    requires w.job.p.Valid() && Result(w.job, w.caps, w.raw, w.ends, w.bodies) && i < |w.raw.blocks|
    requires k + 1 < |Stream(w.job.p, w.raw.blocks[i].range.start, w.raw.blocks[i].range.end)|
    ensures Proceeds(w.job, Stream(w.job.p, w.raw.blocks[i].range.start, w.raw.blocks[i].range.end)[k])
  {
    var s, n := BlockStream(w.job, w.caps, w.raw, w.ends, w.bodies, i);
    InnerFalls(w.job, s, w.bodies[s], n, k);
  }

  lemma InnerFalls(job: Job, s: Addr, body: seq<Insn>, n: nat, k: nat)
    requires Chain(job, s, body) && k + 1 < n <= |body|
    ensures Proceeds(job, body[..n][k])
  {
    assert body[..n][k] == body[k] && job.Falls(body[k]);
  }
}
