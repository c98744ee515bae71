/** What discovered functions take in and where they stop: each branch to a known
    entry leaves, and the sweep misses nothing (crates/e5r-analysis/src/program.rs). */
module Stops {
  import opened Ordered
  import opened Image
  import opened Walk
  import opened Blocks
  import opened WalkTheorems
  import opened Tiling
  import opened Flows
  import opened Discover
  import D = DataMap
  import Gaps
  import Ranges

  /** The walk behind a graph. */
  lemma WalkBehind(job: Job, caps: Caps, raw: RawCfg) returns (w: Trip)
    requires From(job, caps, raw)
    ensures w.job == job && w.caps == caps && w.raw == raw && job.p.Valid() && Result(job, caps, raw, w.ends, w.bodies)
  {
    var ends, bodies :| WalkOf(job, caps, raw, ends, bodies);
    w := Trip(job, caps, raw, ends, bodies);
  }

  /** A block that ends where its last instruction does says what that instruction's
      kind says, unless the walk was cut off there. */
  ghost predicate SaysOrCut(job: Job, raw: RawCfg, i: nat)
    requires job.p.Valid() && i < |raw.blocks|
  {
    var b := raw.blocks[i];
    Stream(job.p, b.range.start, b.range.end) != [] &&
    var last := LastOf(job.p, b);
    last.addr + last.len == b.range.end ==>
      Says(job, b, last) || (raw.halt != Complete && GivenUp(b) && Proceeds(job, last))
  }

  lemma GraphSays(job: Job, caps: Caps, raw: RawCfg, i: nat)
    requires job.p.Valid() && From(job, caps, raw) && i < |raw.blocks|
    ensures SaysOrCut(job, raw, i)
  {
    var w := WalkBehind(job, caps, raw);
    BlockSays(w, i);
  }

  lemma GraphCalls(job: Job, caps: Caps, raw: RawCfg, a: Addr, c: Addr)
    requires job.p.Valid() && From(job, caps, raw) && Tiles(job.p, raw.blocks, a) && CallsTo(job, a, c)
    ensures c in raw.calls
  {
    var w := WalkBehind(job, caps, raw);
    TileCalls(w, a, c);
  }

  // ------------------------------------------------------------------ functions found by evidence

  /** The round a function was walked in. */
  lemma RoundOf(t: Target, opts: Options, led: Functions, log: seq<set<Addr>>, f: Addr) returns (r: nat)
    requires Layered(t, opts, led, log) && f in led
    ensures WalkedIn(t, opts, led, log, f, r)
  {
    assert SomeRound(t, opts, led, log, f);
    r :| WalkedIn(t, opts, led, log, f, r);
  }

  /** The block ends at a direct branch to `h`, and where that branch does. */
  ghost predicate BranchesTo(p: Program, b: Block, h: Addr)
    requires p.Valid()
  {
    Stream(p, b.range.start, b.range.end) != [] &&
    var last := LastOf(p, b);
    (last.flow == Flow.Branch(h) || last.flow == CondBranch(h)) && last.addr + last.len == b.range.end
  }

  /** The block leaves the function there: a tail call, or on to the next instruction
      alone when the branch is conditional. */
  ghost predicate LeavesThere(p: Program, b: Block)
    requires p.Valid() && Stream(p, b.range.start, b.range.end) != []
  {
    if LastOf(p, b).flow.Branch? then b.successors == [] && b.terminator == TailCall
    else b.successors == [b.range.end] && b.terminator == Terminator.Flow
  }

  /** A direct branch out of a function to an address that had evidence when its round
      began, and is not its own entry, is one of its calls and is not followed. */
  lemma BranchesLeave(t: Target, opts: Options, led: Functions, log: seq<set<Addr>>, f: Addr, r: nat, i: nat, h: Addr)
    requires t.p.Valid() && Layered(t, opts, led, log) && WalkedIn(t, opts, led, log, f, r)
    requires h in log[r] && h != f && i < |led[f].blocks| && BranchesTo(t.p, led[f].blocks[i], h)
    ensures h in led[f].calls && LeavesThere(t.p, led[f].blocks[i])
  {
    var job := Job(t.p, f, log[r], {}, {});
    GraphSays(job, opts.caps, led[f], i);
    OutSays(job, led[f], i, h);
    LastTiles(t.p, led[f].blocks, i);
    GraphCalls(job, opts.caps, led[f], LastOf(t.p, led[f].blocks[i]).addr, h);
  }

  lemma OutSays(job: Job, raw: RawCfg, i: nat, h: Addr)
    requires job.p.Valid() && i < |raw.blocks| && SaysOrCut(job, raw, i) && BranchesTo(job.p, raw.blocks[i], h)
    requires !Inside(job, h) && job.noreturn == {}
    ensures LeavesThere(job.p, raw.blocks[i])
    ensures CallsTo(job, LastOf(job.p, raw.blocks[i]).addr, h)
  {
    var b := raw.blocks[i];
    OneListed(b.successors, b.range.end);
    LastInCode(job.p, b);
  }

  lemma LastInCode(p: Program, b: Block)
    requires p.Valid() && Stream(p, b.range.start, b.range.end) != []
    ensures LastOf(p, b).addr in p.code && p.code[LastOf(p, b).addr] == LastOf(p, b)
  {
    StreamInCode(p, b.range.start, b.range.end, |Stream(p, b.range.start, b.range.end)| - 1);
  }

  lemma {:induction false} StreamInCode(p: Program, at: Addr, end: Addr, k: nat)
    requires p.Valid() && k < |Stream(p, at, end)|
    ensures var i := Stream(p, at, end)[k]; i.addr in p.code && p.code[i.addr] == i
    decreases end - at
  {
    if k > 0 {
      StreamInCode(p, p.code[at].End(), end, k - 1);
    }
  }

  lemma OneListed(xs: seq<Addr>, x: Addr)
    requires Ascending(xs)
    ensures Elems(xs) == {} ==> xs == []
    ensures Elems(xs) == {x} ==> xs == [x]
  {
    if xs != [] {
      assert xs[0] in Elems(xs);
    }
    if |xs| > 1 {
      assert xs[1] in Elems(xs) && xs[0] in Elems(xs);
    }
  }

  lemma LastTiles(p: Program, blocks: seq<Block>, i: nat)
    requires p.Valid() && i < |blocks| && Stream(p, blocks[i].range.start, blocks[i].range.end) != []
    ensures var a := LastOf(p, blocks[i]).addr; Tiles(p, blocks, a)
  {
    var insns := Stream(p, blocks[i].range.start, blocks[i].range.end);
    assert InBlock(p, blocks[i], |insns| - 1, LastOf(p, blocks[i]).addr);
  }

  /** An executable hint has evidence in every round. */
  lemma HintsFirst(t: Target, opts: Options, hints: seq<Addr>, led: Functions, log: seq<set<Addr>>, h: Addr, r: nat)
    requires Layered(t, opts, led, log) && log[0] == Elems(Seeds(t, hints)) && r < |log|
    requires h in hints && h in t.p.exec
    ensures h in log[r]
  {
    assert h in Elems(Seeds(t, hints));
    assert log[0] <= log[r];
  }

  /** Any instruction of a function that branches directly to an executable hint other
      than the function's own entry makes it one of the function's calls. */
  lemma HintsAreCalls(t: Target, opts: Options, hints: seq<Addr>, led: Functions, log: seq<set<Addr>>, f: Addr, a: Addr, h: Addr)
    requires t.p.Valid() && Layered(t, opts, led, log) && log[0] == Elems(Seeds(t, hints)) && f in led
    requires h in hints && h in t.p.exec && h != f
    requires Tiles(t.p, led[f].blocks, a) && a in t.p.code
    requires t.p.code[a].flow == Flow.Branch(h) || t.p.code[a].flow == CondBranch(h)
    ensures h in led[f].calls
  {
    var r := RoundOf(t, opts, led, log, f);
    HintsFirst(t, opts, hints, led, log, h, r);
    GraphCalls(Job(t.p, f, log[r], {}, {}), opts.caps, led[f], a, h);
  }

  /** And the block it ends does not go on into the hint. */
  lemma HintsNotFollowed(t: Target, opts: Options, hints: seq<Addr>, led: Functions, log: seq<set<Addr>>, f: Addr, i: nat,
                         h: Addr)
    requires t.p.Valid() && Layered(t, opts, led, log) && log[0] == Elems(Seeds(t, hints)) && f in led
    requires h in hints && h in t.p.exec && h != f && i < |led[f].blocks| && BranchesTo(t.p, led[f].blocks[i], h)
    ensures LeavesThere(t.p, led[f].blocks[i])
  {
    var r := RoundOf(t, opts, led, log, f);
    HintsFirst(t, opts, hints, led, log, h, r);
    BranchesLeave(t, opts, led, log, f, r, i, h);
  }

  // ------------------------------------------------------------------ the sweep

  /** On an aligned image whose segments do not overlap, a sweep that found no more
      than its cap allows leaves no prologue on the grid, outside code and data, that
      is not a function, unless nothing decodes there. Discovery that sweeps ends in
      `SweptAs`. */
  lemma SweepMissesNothing(t: Target, opts: Options, led: Functions, evidence: set<Addr>, known: Functions, sweep: Sweeping,
                           a: Addr)
    requires SweptAs(t, opts, led, evidence, known, sweep) && Gaps.Stride(t.arch).Some?
    requires var step := Gaps.Stride(t.arch).value;
      Gaps.Aligned(t.segments, Code(led), step) && Gaps.Apart(t.segments) && a % step == 0
    requires |sweep.found| <= opts.caps.functionBlocks && Gaps.InExec(t.segments, a) && t.prologue(a)
    requires !Ranges.Covers(Code(led), a) && forall r :: !ProofAt(t, opts, led, r, a)
    ensures a in known || Barren(t, opts, a)
  {
    NotData(t, opts, led, sweep.data, a);
    Looked(t, opts, led, sweep, a);
  }

  lemma NotData(t: Target, opts: Options, led: Functions, data: D.DataMap, a: Addr)
    requires Proved(t, opts, led, data) && forall r :: !ProofAt(t, opts, led, r, a)
    ensures !data.Marked(a)
  {
    D.ContainsIff(data, a);
  }

  /** The sweep finds a prologue that is not data. */
  lemma Looked(t: Target, opts: Options, led: Functions, sweep: Sweeping, a: Addr)
    requires Scanned(t, opts, led, sweep) && Gaps.Stride(t.arch).Some? && !sweep.data.Marked(a)
    requires var step := Gaps.Stride(t.arch).value;
      Gaps.Aligned(t.segments, Code(led), step) && Gaps.Apart(t.segments) && a % step == 0
    requires |sweep.found| <= opts.caps.functionBlocks && Gaps.InExec(t.segments, a) && t.prologue(a)
    requires !Ranges.Covers(Code(led), a)
    ensures a in sweep.found
  {
    var w := Gaps.Sweep(Gaps.Stride(t.arch).value, sweep.data, t.prologue);
    assert Gaps.Candidate(w, t.segments, Code(led), a);
  }
}
