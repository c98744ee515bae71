/** What a walk's blocks mean: the laws every later pass relies on. */
module WalkTheorems {
  import opened Ordered
  import opened Image
  import opened Walk
  import opened Blocks

  /** The blocks, read back in order, contain an instruction at `a`. */
  ghost predicate Tiles(p: Program, blocks: seq<Block>, a: Addr)
    requires p.Valid()
  {
    exists i, k :: 0 <= i < |blocks| && InBlock(p, blocks[i], k, a)
  }

  ghost predicate InBlock(p: Program, b: Block, k: int, a: Addr)
    requires p.Valid()
  {
    var insns := Stream(p, b.range.start, b.range.end);
    0 <= k < |insns| && insns[k].addr == a
  }

  /** A run decodes an instruction at `a`. */
  ghost predicate InRun(bodies: map<Addr, seq<Insn>>, s: Addr, a: Addr) {
    s in bodies && exists k :: 0 <= k < |bodies[s]| && bodies[s][k].addr == a
  }

  /** Some run decodes `a` and no other start falls after that run's start up
      to and including `a`. */
  ghost predicate Kept(ends: map<Addr, Ending>, bodies: map<Addr, seq<Insn>>, s: Addr, a: Addr) {
    InRun(bodies, s, a) && forall c :: c in ends ==> !(s < c <= a)
  }

  // --------------------------------------------------- shape of the blocks

  /** A block is cut from the run that starts where it does. */
  lemma BlockOfRun(job: Job, caps: Caps, raw: RawCfg, ends: map<Addr, Ending>, bodies: map<Addr, seq<Insn>>, i: nat)
    requires job.p.Valid() && Result(job, caps, raw, ends, bodies) && i < |raw.blocks|
    ensures var s := raw.blocks[i].range.start;
      s in ends && s in bodies && s < ends[s].end && raw.blocks[i] == SplitBlock(job.p, ends, s) &&
      RunOk(job, s, bodies[s], ends[s], ends.Keys, raw.halt)
  {
  }

  lemma SplitStream(job: Job, ends: map<Addr, Ending>, s: Addr, body: seq<Insn>, halt: Halt) returns (n: nat)
    requires job.p.Valid() && s in ends && s < ends[s].end && RunOk(job, s, body, ends[s], ends.Keys, halt)
    ensures var b := SplitBlock(job.p, ends, s);
      n <= |body| && s < b.range.end <= ends[s].end == EndOf(s, body) &&
      Stream(job.p, s, b.range.end) == body[..n] && b.insns == n > 0 && body != [] && body[0].addr == s &&
      (forall j :: 0 <= j < |body| ==> (body[j].addr < b.range.end <==> j < n)) &&
      (forall c :: c in ends ==> !(s < c < b.range.end)) && (b.range.end == ends[s].end || b.range.end in ends)
  {
    var b := SplitBlock(job.p, ends, s);
    n := StreamOfRun(job, s, body, 0, b.range.end);
    RunAscends(job, s, body);
    assert body[0..n] == body[..n];
  }

  /** A block streams the part of its run that starts below its end. */
  lemma BlockStream(job: Job, caps: Caps, raw: RawCfg, ends: map<Addr, Ending>, bodies: map<Addr, seq<Insn>>, i: nat)
    returns (s: Addr, n: nat)
    requires job.p.Valid() && Result(job, caps, raw, ends, bodies) && i < |raw.blocks|
    ensures s in ends && s == raw.blocks[i].range.start && n <= |bodies[s]|
    ensures s < raw.blocks[i].range.end <= ends[s].end == EndOf(s, bodies[s])
    ensures Stream(job.p, s, raw.blocks[i].range.end) == bodies[s][..n]
    ensures forall j :: 0 <= j < |bodies[s]| ==> (bodies[s][j].addr < raw.blocks[i].range.end <==> j < n)
    ensures raw.blocks[i].insns == n
    ensures forall c :: c in ends ==> !(s < c < raw.blocks[i].range.end)
    ensures raw.blocks[i].range.end == ends[s].end || raw.blocks[i].range.end in ends
    ensures bodies[s] != [] && bodies[s][0].addr == s && n > 0
    ensures RunOk(job, s, bodies[s], ends[s], ends.Keys, raw.halt) && raw.blocks[i] == SplitBlock(job.p, ends, s)
  {
    BlockOfRun(job, caps, raw, ends, bodies, i);
    s := raw.blocks[i].range.start;
    n := SplitStream(job, ends, s, bodies[s], raw.halt);
  }

  /** Blocks are non-empty and pairwise disjoint, in address order, and each
      counts exactly the instructions it streams, whatever ended the walk. */
  lemma BlocksDisjoint(job: Job, caps: Caps, raw: RawCfg, ends: map<Addr, Ending>, bodies: map<Addr, seq<Insn>>, i: nat)
    requires job.p.Valid() && Result(job, caps, raw, ends, bodies) && i < |raw.blocks|
    ensures raw.blocks[i].range.start < raw.blocks[i].range.end
    ensures raw.blocks[i].insns == |Stream(job.p, raw.blocks[i].range.start, raw.blocks[i].range.end)| > 0
    ensures forall j :: i < j < |raw.blocks| ==> raw.blocks[i].range.end <= raw.blocks[j].range.start
  {
    var s, n := BlockStream(job, caps, raw, ends, bodies, i);
    assert |bodies[s][..n]| == n;
    forall j | i < j < |raw.blocks| ensures raw.blocks[i].range.end <= raw.blocks[j].range.start {
      assert s < raw.blocks[j].range.start && raw.blocks[j].range.start in ends;
    }
  }

  lemma TileIsKept(job: Job, caps: Caps, raw: RawCfg, ends: map<Addr, Ending>, bodies: map<Addr, seq<Insn>>, i: nat, k: int, a: Addr)
    requires job.p.Valid() && Result(job, caps, raw, ends, bodies)
    requires i < |raw.blocks| && InBlock(job.p, raw.blocks[i], k, a)
    ensures Kept(ends, bodies, raw.blocks[i].range.start, a)
  {
    var s, n := BlockStream(job, caps, raw, ends, bodies, i);
    assert bodies[s][..n][k] == bodies[s][k];
  }

  lemma KeptIsTile(job: Job, caps: Caps, raw: RawCfg, ends: map<Addr, Ending>, bodies: map<Addr, seq<Insn>>, i: nat, k: nat)
    requires job.p.Valid() && Result(job, caps, raw, ends, bodies) && i < |raw.blocks|
    requires raw.blocks[i].range.start in bodies && k < |bodies[raw.blocks[i].range.start]|
    requires forall c :: c in ends ==> !(raw.blocks[i].range.start < c <= bodies[raw.blocks[i].range.start][k].addr)
    ensures InBlock(job.p, raw.blocks[i], k, bodies[raw.blocks[i].range.start][k].addr)
  {
    var s, n := BlockStream(job, caps, raw, ends, bodies, i);
    RunAscends(job, s, bodies[s]);
    assert bodies[s][k].addr < raw.blocks[i].range.end;
    assert bodies[s][..n][k] == bodies[s][k];
  }

  /** A run that decodes something has a block. */
  lemma RunHasBlock(job: Job, caps: Caps, raw: RawCfg, ends: map<Addr, Ending>, bodies: map<Addr, seq<Insn>>, s: Addr)
    returns (i: nat)
    requires job.p.Valid() && Result(job, caps, raw, ends, bodies) && s in bodies && bodies[s] != []
    ensures i < |raw.blocks| && raw.blocks[i].range.start == s
  {
    assert RunOk(job, s, bodies[s], ends[s], ends.Keys, raw.halt);
    RunAscends(job, s, bodies[s]);
    i :| 0 <= i < |raw.blocks| && raw.blocks[i].range.start == s;
  }

  /** Exactly which decoded instructions survive splitting, with no assumption
      on the image: those no later start cuts off. */
  lemma TilesExactly(job: Job, caps: Caps, raw: RawCfg, ends: map<Addr, Ending>, bodies: map<Addr, seq<Insn>>, a: Addr)
    requires job.p.Valid() && Result(job, caps, raw, ends, bodies)
    ensures Tiles(job.p, raw.blocks, a) <==> exists s :: Kept(ends, bodies, s, a)
  {
    if Tiles(job.p, raw.blocks, a) {
      var i, k :| 0 <= i < |raw.blocks| && InBlock(job.p, raw.blocks[i], k, a);
      TileIsKept(job, caps, raw, ends, bodies, i, k, a);
    }
    if s :| Kept(ends, bodies, s, a) {
      var k :| 0 <= k < |bodies[s]| && bodies[s][k].addr == a;
      var i := RunHasBlock(job, caps, raw, ends, bodies, s);
      KeptIsTile(job, caps, raw, ends, bodies, i, k);
    }
  }

  /** Nothing unreachable is ever in a block, however the walk stopped. */
  lemma TilesOnlyReachable(job: Job, caps: Caps, raw: RawCfg, ends: map<Addr, Ending>, bodies: map<Addr, seq<Insn>>, a: Addr)
    requires job.p.Valid() && Result(job, caps, raw, ends, bodies) && Tiles(job.p, raw.blocks, a)
    ensures job.Reachable(a) && job.Decodable(a)
  {
    TilesExactly(job, caps, raw, ends, bodies, a);
    var s :| Kept(ends, bodies, s, a);
    var k :| 0 <= k < |bodies[s]| && bodies[s][k].addr == a;
    assert RunOk(job, s, bodies[s], ends[s], ends.Keys, raw.halt);
    RunReachable(job, s, bodies[s], k);
  }

  // -------------------------------------------------------- a complete walk

  /** The runs of a walk that stopped because nothing was left to walk. */
  ghost predicate CompleteRuns(job: Job, ends: map<Addr, Ending>, bodies: map<Addr, seq<Insn>>) {
    RunsOk(job, ends, bodies, Complete) && Rooted(job, ends.Keys, {}) && Closed(job, ends, {})
  }

  /** Some run decodes an instruction here. */
  ghost predicate Decoded(bodies: map<Addr, seq<Insn>>, a: Addr) {
    exists s :: InRun(bodies, s, a)
  }

  /** On a complete walk every start has a run that decodes it. */
  lemma StartDecodes(job: Job, ends: map<Addr, Ending>, bodies: map<Addr, seq<Insn>>, s: Addr)
    requires job.p.Valid() && CompleteRuns(job, ends, bodies) && s in ends
    ensures Chain(job, s, bodies[s]) && bodies[s] != [] && bodies[s][0].addr == s && ends[s].end == EndOf(s, bodies[s])
    ensures s < ends[s].end && job.Reachable(s) && job.Decodable(s)
    ensures Joined(job, s, bodies[s], ends[s], ends.Keys) || Exited(job, s, bodies[s], ends[s])
  {
    assert RunOk(job, s, bodies[s], ends[s], ends.Keys, Complete);
    RunAscends(job, s, bodies[s]);
  }

  /** Where a step from an instruction of a run can land. */
  lemma StepStays(job: Job, starts: set<Addr>, s: Addr, body: seq<Insn>, e: Ending, k: nat, b: Addr)
    requires job.p.Valid() && Chain(job, s, body) && e.end == EndOf(s, body) && k < |body|
    requires Joined(job, s, body, e, starts) || Exited(job, s, body, e)
    requires job.Step(body[k].addr, b)
    ensures (k + 1 < |body| && body[k + 1].addr == b) || b in starts || (b in e.succs && b in job.p.exec)
  {
    if k + 1 < |body| {
      assert job.Falls(body[k]) && body[k + 1].addr == body[k].End();
    } else {
      assert !job.Falls(body[k]) ==> b in Elems(e.succs);
    }
  }

  /** One flow step from a decoded instruction lands on a decoded instruction. */
  lemma DecodedStep(job: Job, ends: map<Addr, Ending>, bodies: map<Addr, seq<Insn>>, s: Addr, k: nat, b: Addr)
    requires job.p.Valid() && CompleteRuns(job, ends, bodies)
    requires s in bodies && k < |bodies[s]| && job.Step(bodies[s][k].addr, b)
    ensures Decoded(bodies, b)
  {
    StartDecodes(job, ends, bodies, s);
    StepStays(job, ends.Keys, s, bodies[s], ends[s], k, b);
    if k + 1 < |bodies[s]| && bodies[s][k + 1].addr == b {
      assert InRun(bodies, s, b);
    } else {
      assert b in ends;
      StartDecodes(job, ends, bodies, b);
      assert InRun(bodies, b, b);
    }
  }

  /** A complete walk has decoded exactly the reachable instructions, before
      any splitting. Overlapping instructions are allowed here. */
  lemma CompleteDecodesReachable(job: Job, ends: map<Addr, Ending>, bodies: map<Addr, seq<Insn>>, a: Addr)
    requires job.p.Valid() && CompleteRuns(job, ends, bodies)
    ensures job.Reachable(a) <==> Decoded(bodies, a)
    ensures job.Reachable(a) ==> job.Decodable(a)
  {
    if s :| InRun(bodies, s, a) {
      var k :| 0 <= k < |bodies[s]| && bodies[s][k].addr == a;
      StartDecodes(job, ends, bodies, s);
      RunReachable(job, s, bodies[s], k);
    }
    if job.Reachable(a) {
      var all := iset x | Decoded(bodies, x);
      StartDecodes(job, ends, bodies, job.entry);
      assert InRun(bodies, job.entry, job.entry);
      forall x, y | x in all && job.Step(x, y) ensures y in all {
        var s :| InRun(bodies, s, x);
        var k :| 0 <= k < |bodies[s]| && bodies[s][k].addr == x;
        DecodedStep(job, ends, bodies, s, k, y);
      }
      var path :| job.IsPath(path) && path[|path| - 1] == a;
      ClosedHolds(job, all, path);
    }
  }

  /** `x` leads to `a` by falling through only. */
  ghost predicate Line(job: Job, x: Addr, a: Addr)
    requires job.p.Valid()
    decreases a - x
  {
    x == a || (x < a && x in job.p.code && job.Falls(job.p.code[x]) && Line(job, job.p.code[x].End(), a))
  }

  lemma {:induction false} LineAlong(job: Job, s: Addr, body: seq<Insn>, i: nat, k: nat)
    requires job.p.Valid() && Chain(job, s, body) && i <= k < |body|
    ensures Line(job, body[i].addr, body[k].addr)
    decreases k - i
  {
    if i < k {
      RunAscends(job, s, body);
      LineAlong(job, s, body, i + 1, k);
      assert job.Falls(body[i]) && body[i + 1].addr == body[i].End();
    }
  }

  /** A line out of a run's instruction stays in the run or leaves by its end. */
  lemma {:induction false} LineStays(job: Job, s: Addr, body: seq<Insn>, i: nat, a: Addr)
    requires job.p.Valid() && Chain(job, s, body) && i < |body| && Line(job, body[i].addr, a)
    ensures (exists k :: i <= k < |body| && body[k].addr == a) ||
            (job.Falls(body[|body| - 1]) && Line(job, EndOf(s, body), a))
    decreases |body| - i
  {
    if body[i].addr != a && i + 1 < |body| {
      assert body[i + 1].addr == body[i].End();
      LineStays(job, s, body, i + 1, a);
    }
  }

  /** A start strictly inside a run's range is one of the run's instructions,
      because two reachable instructions never overlap. */
  lemma {:induction false} CutOnBoundary(job: Job, s: Addr, body: seq<Insn>, c: Addr) returns (k: nat)
    requires job.p.Valid() && Chain(job, s, body) && body != [] && job.Reachable(s) && job.NoOverlap()
    requires job.Reachable(c) && job.Decodable(c) && s <= c < EndOf(s, body)
    ensures k < |body| && body[k].addr == c
  {
    k := |body| - 1;
    while c < body[k].addr
      invariant k < |body| && c < body[k].End()
    {
      assert k > 0 && body[k].addr == body[k - 1].End();
      k := k - 1;
    }
    RunReachable(job, s, body, k);
    assert body[k] == job.p.code[body[k].addr];
  }

  /** An instruction a start leads to by falling through is kept by some run. */
  lemma {:induction false} SomeRunKeeps(job: Job, ends: map<Addr, Ending>, bodies: map<Addr, seq<Insn>>, s: Addr, a: Addr)
    requires job.p.Valid() && CompleteRuns(job, ends, bodies) && job.NoOverlap()
    requires s in ends && Line(job, s, a)
    ensures exists t :: Kept(ends, bodies, t, a)
    decreases a - s
  {
    StartDecodes(job, ends, bodies, s);
    var body := bodies[s];
    RunAscends(job, s, body);
    LineStays(job, s, body, 0, a);
    if k :| 0 <= k < |body| && body[k].addr == a {
      assert InRun(bodies, s, a);
      if c :| c in ends && s < c <= a {
        StartDecodes(job, ends, bodies, c);
        var j := CutOnBoundary(job, s, body, c);
        LineAlong(job, s, body, j, k);
        SomeRunKeeps(job, ends, bodies, c, a);
      } else {
        assert Kept(ends, bodies, s, a);
      }
    } else {
      SomeRunKeeps(job, ends, bodies, ends[s].end, a);
    }
  }

  lemma ReachableIsTiled(job: Job, caps: Caps, raw: RawCfg, ends: map<Addr, Ending>, bodies: map<Addr, seq<Insn>>, a: Addr)
    requires job.p.Valid() && Result(job, caps, raw, ends, bodies) && raw.halt == Complete && job.NoOverlap()
    requires job.Reachable(a)
    ensures Tiles(job.p, raw.blocks, a)
  {
    CompleteDecodesReachable(job, ends, bodies, a);
    var s :| InRun(bodies, s, a);
    var k :| 0 <= k < |bodies[s]| && bodies[s][k].addr == a;
    StartDecodes(job, ends, bodies, s);
    LineAlong(job, s, bodies[s], 0, k);
    SomeRunKeeps(job, ends, bodies, s, a);
    TilesExactly(job, caps, raw, ends, bodies, a);
  }

  /** The main law: a complete walk of an image whose instructions do not
      overlap tiles exactly the instructions control can reach. */
  lemma CompleteTilesReachable(job: Job, caps: Caps, raw: RawCfg, ends: map<Addr, Ending>, bodies: map<Addr, seq<Insn>>)
    requires job.p.Valid() && Result(job, caps, raw, ends, bodies) && raw.halt == Complete && job.NoOverlap()
    ensures forall a :: Tiles(job.p, raw.blocks, a) <==> job.Reachable(a)
  {
    forall a ensures Tiles(job.p, raw.blocks, a) <==> job.Reachable(a) {
      if job.Reachable(a) {
        ReachableIsTiled(job, caps, raw, ends, bodies, a);
      }
      if Tiles(job.p, raw.blocks, a) {
        TilesOnlyReachable(job, caps, raw, ends, bodies, a);
      }
    }
  }

  // ------------------------------------------------ edges, calls and counts

  ghost predicate IsBlockStart(blocks: seq<Block>, a: Addr) {
    exists i :: 0 <= i < |blocks| && blocks[i].range.start == a
  }

  /** On a complete walk the entry and every executable successor of every
      block, split or not, are block starts. */
  lemma SuccessorsAreBlocks(job: Job, caps: Caps, raw: RawCfg, ends: map<Addr, Ending>, bodies: map<Addr, seq<Insn>>, i: nat, t: Addr)
    requires job.p.Valid() && Result(job, caps, raw, ends, bodies) && raw.halt == Complete
    requires i < |raw.blocks| && t in raw.blocks[i].successors && t in job.p.exec
    ensures IsBlockStart(raw.blocks, t)
  {
    SuccessorIsStart(job, ends, raw.blocks[i].range.start, t);
    StartHasBlock(job, caps, raw, ends, bodies, t);
  }

  lemma SuccessorIsStart(job: Job, ends: map<Addr, Ending>, s: Addr, t: Addr)
    requires job.p.Valid() && s in ends && t in SplitBlock(job.p, ends, s).successors && t in job.p.exec
    requires Closed(job, ends, {})
    ensures t in ends
  {
  }

  lemma StartHasBlock(job: Job, caps: Caps, raw: RawCfg, ends: map<Addr, Ending>, bodies: map<Addr, seq<Insn>>, s: Addr)
    requires job.p.Valid() && Result(job, caps, raw, ends, bodies) && raw.halt == Complete && s in ends
    ensures IsBlockStart(raw.blocks, s)
  {
    StartDecodes(job, ends, bodies, s);
    var j := RunHasBlock(job, caps, raw, ends, bodies, s);
  }

  lemma EntryIsBlock(job: Job, caps: Caps, raw: RawCfg, ends: map<Addr, Ending>, bodies: map<Addr, seq<Insn>>)
    requires job.p.Valid() && Result(job, caps, raw, ends, bodies) && raw.halt == Complete
    ensures IsBlockStart(raw.blocks, job.entry)
  {
    StartHasBlock(job, caps, raw, ends, bodies, job.entry);
  }

  /** A block whose run ends at an instruction that does not fall through, with
      no start after it inside the block, lists where that instruction goes. */
  lemma LastExits(job: Job, caps: Caps, raw: RawCfg, ends: map<Addr, Ending>, bodies: map<Addr, seq<Insn>>, s: Addr, x: Addr, a: Addr)
    requires job.p.Valid() && Result(job, caps, raw, ends, bodies) && raw.halt == Complete && job.NoOverlap()
    requires Kept(ends, bodies, s, x) && job.Lands(x, a)
    ensures s in ends && a in SplitBlock(job.p, ends, s).successors
  {
    StartDecodes(job, ends, bodies, s);
    var body := bodies[s];
    assert RunOk(job, s, body, ends[s], ends.Keys, raw.halt);
    var k :| 0 <= k < |body| && body[k].addr == x;
    assert body[k] == job.p.code[x];
    assert k == |body| - 1;
    if Cut(ends, s).Some? {
      var c := Cut(ends, s).value;
      StartDecodes(job, ends, bodies, c);
    }
    assert a in Elems(ends[s].succs);
  }

  /** After a complete walk of an image whose instructions do not overlap, every
      block but the entry's is some block's successor. */
  lemma BlockIsEntered(job: Job, caps: Caps, raw: RawCfg, ends: map<Addr, Ending>, bodies: map<Addr, seq<Insn>>, j: nat)
    returns (i: nat)
    requires job.p.Valid() && Result(job, caps, raw, ends, bodies) && raw.halt == Complete && job.NoOverlap()
    requires j < |raw.blocks| && raw.blocks[j].range.start != job.entry
    ensures i < |raw.blocks| && raw.blocks[j].range.start in raw.blocks[i].successors
  {
    var a := raw.blocks[j].range.start;
    assert job.Landing(a);
    var x :| job.Lands(x, a);
    ReachableIsTiled(job, caps, raw, ends, bodies, x);
    var k;
    i, k :| 0 <= i < |raw.blocks| && InBlock(job.p, raw.blocks[i], k, x);
    TileIsKept(job, caps, raw, ends, bodies, i, k, x);
    LastExits(job, caps, raw, ends, bodies, raw.blocks[i].range.start, x, a);
    var s, n := BlockStream(job, caps, raw, ends, bodies, i);
  }

  lemma {:induction false} CallsInMember(job: Job, body: seq<Insn>, t: Addr)
    ensures t in CallsIn(job, body) <==> exists k :: 0 <= k < |body| && t in job.CallsOf(body[k])
  {
    if body != [] {
      var less := body[..|body| - 1];
      CallsInMember(job, less, t);
      if t in CallsIn(job, less) {
        var k :| 0 <= k < |less| && t in job.CallsOf(less[k]);
        assert body[k] == less[k];
      }
      if k :| 0 <= k < |body| && t in job.CallsOf(body[k]) {
        assert k < |less| ==> less[k] == body[k];
      }
    }
  }

  /** The calls of a complete walk are those some reachable instruction makes. */
  lemma CallsExact(job: Job, caps: Caps, raw: RawCfg, ends: map<Addr, Ending>, bodies: map<Addr, seq<Insn>>, t: Addr)
    requires job.p.Valid() && Result(job, caps, raw, ends, bodies) && raw.halt == Complete
    ensures t in raw.calls <==> exists a :: job.Reachable(a) && a in job.p.code && t in job.CallsOf(job.p.code[a])
  {
    if t in raw.calls {
      var s :| s in bodies && t in CallsIn(job, bodies[s]);
      CallsInMember(job, bodies[s], t);
      var k :| 0 <= k < |bodies[s]| && t in job.CallsOf(bodies[s][k]);
      StartDecodes(job, ends, bodies, s);
      RunReachable(job, s, bodies[s], k);
      assert job.p.code[bodies[s][k].addr] == bodies[s][k];
    }
    if a :| job.Reachable(a) && a in job.p.code && t in job.CallsOf(job.p.code[a]) {
      CompleteDecodesReachable(job, ends, bodies, a);
      var s :| InRun(bodies, s, a);
      var k :| 0 <= k < |bodies[s]| && bodies[s][k].addr == a;
      StartDecodes(job, ends, bodies, s);
      assert bodies[s][k] == job.p.code[a];
      CallsInMember(job, bodies[s], t);
    }
  }

  /** Instructions over all blocks, as `Cfg::insns` adds them up. */
  function TotalInsns(blocks: seq<Block>): nat {
    if blocks == [] then 0 else TotalInsns(blocks[..|blocks| - 1]) + blocks[|blocks| - 1].insns
  }

  lemma {:induction false} TotalWithinSpent(blocks: seq<Block>, bodies: map<Addr, seq<Insn>>)
    requires forall b :: b in blocks ==> b.range.start in bodies && b.insns <= |bodies[b.range.start]|
    requires forall i, j :: 0 <= i < j < |blocks| ==> blocks[i].range.start < blocks[j].range.start
    ensures TotalInsns(blocks) <= Spent(bodies)
  {
    if blocks != [] {
      var less, last := blocks[..|blocks| - 1], blocks[|blocks| - 1];
      SpentAny(bodies, last.range.start);
      assert last in blocks;
      forall b | b in less
        ensures b.range.start in bodies - {last.range.start} && b.insns <= |(bodies - {last.range.start})[b.range.start]|
      {
        assert b in blocks;
        var i :| 0 <= i < |less| && less[i] == b;
        assert blocks[i] == b && blocks[i].range.start < last.range.start;
      }
      TotalWithinSpent(less, bodies - {last.range.start});
    }
  }

  lemma BlockWithin(job: Job, caps: Caps, raw: RawCfg, ends: map<Addr, Ending>, bodies: map<Addr, seq<Insn>>, b: Block)
    requires job.p.Valid() && Result(job, caps, raw, ends, bodies) && b in raw.blocks
    ensures b.range.start in bodies && b.range.start in ends && b.insns <= |bodies[b.range.start]|
  {
    var i :| 0 <= i < |raw.blocks| && raw.blocks[i] == b;
    var s, n := BlockStream(job, caps, raw, ends, bodies, i);
  }

  function Starts(blocks: seq<Block>): (r: seq<Addr>)
    ensures |r| == |blocks| && forall i :: 0 <= i < |blocks| ==> r[i] == blocks[i].range.start
  {
    if blocks == [] then [] else Starts(blocks[..|blocks| - 1]) + [blocks[|blocks| - 1].range.start]
  }

  /** A walk keeps both caps: instructions and blocks. */
  lemma WithinCaps(job: Job, caps: Caps, raw: RawCfg, ends: map<Addr, Ending>, bodies: map<Addr, seq<Insn>>)
    requires job.p.Valid() && Result(job, caps, raw, ends, bodies)
    ensures TotalInsns(raw.blocks) <= caps.functionInsns
    ensures |raw.blocks| <= caps.functionBlocks
  {
    forall b | b in raw.blocks
      ensures b.range.start in bodies && b.range.start in ends && b.insns <= |bodies[b.range.start]|
    {
      BlockWithin(job, caps, raw, ends, bodies, b);
    }
    TotalWithinSpent(raw.blocks, bodies);
    var starts := Starts(raw.blocks);
    forall x | x in starts ensures x in ends.Keys {
      var i :| 0 <= i < |starts| && starts[i] == x;
      assert raw.blocks[i] in raw.blocks;
    }
    DistinctFits(starts, ends.Keys);
  }

  /** Control goes nowhere from an address that does not decode. */
  lemma StuckAtEntry(job: Job, a: Addr)
    requires job.Reachable(a) && !job.Decodable(job.entry)
    ensures a == job.entry
  {
    var path :| job.IsPath(path) && path[|path| - 1] == a;
    assert |path| > 1 ==> job.Step(path[0], path[1]);
  }

  /** A walk with room for a block and an instruction gives no blocks exactly
      when its entry does not decode, whatever it was told to stop at. */
  lemma NoBlocksIff(job: Job, caps: Caps, raw: RawCfg, ends: map<Addr, Ending>, bodies: map<Addr, seq<Insn>>)
    requires job.p.Valid() && Result(job, caps, raw, ends, bodies) && Begun(job, caps, ends, bodies)
    requires caps.functionBlocks > 0 && caps.functionInsns > 0
    ensures raw.blocks == [] <==> !job.Decodable(job.entry)
  {
    if job.Decodable(job.entry) {
      var i := RunHasBlock(job, caps, raw, ends, bodies, job.entry);
    } else if raw.blocks != [] {
      var s, n := BlockStream(job, caps, raw, ends, bodies, 0);
      assert job.Landing(s);
      StuckAtEntry(job, s);
    }
  }

  /** Where an instruction that does not fall through goes, its run leaves to. */
  lemma ExitTargets(job: Job, s: Addr, body: seq<Insn>, e: Ending, starts: set<Addr>, k: nat, t: Addr)
    requires Chain(job, s, body) && (Joined(job, s, body, e, starts) || Exited(job, s, body, e))
    requires k < |body| && !job.Falls(body[k]) && t in job.Exits(body[k])
    ensures t in e.succs
  {
    assert k == |body| - 1;
    assert t in Elems(job.Exits(body[k]));
  }
}
