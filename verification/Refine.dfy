/** Re-walking the callers of functions that never return
    (crates/e5r-analysis/src/program.rs). */
module Refine {
  import opened Ordered
  import opened Image
  import opened Walk
  import opened Blocks
  import opened WalkTheorems
  import opened Tiling
  import opened Halting
  import opened Rewalk
  import opened Discover
  import opened Flows
  import opened Stops
  import NoReturn

  /** How a caller is walked again: stopping at every known function, with
      nothing known to be data. */
  function Again(t: Target, known: Functions, gone: set<Addr>, a: Addr): Job {
    Job(t.p, a, known.Keys, gone, {})
  }

  /** A function that calls something that never returns, and returns itself. */
  predicate Affected(known: Functions, gone: set<Addr>, a: Addr)
    requires a in known
  {
    a !in gone && known[a].calls * gone != {}
  }

  ghost predicate Rewalked(t: Target, caps: Caps, known: Functions, gone: set<Addr>, a: Addr, raw: RawCfg) {
    match t
    case Target(_, _, _, _, _) =>
      exists ends, bodies :: WalkOf(Again(t, known, gone, a), caps, raw, ends, bodies)
  }

  /** Unaffected functions are kept; an affected one is replaced by what walking
      it again gives, which is something whenever its entry decodes. */
  ghost predicate Replaced(t: Target, opts: Options, known: Functions, gone: set<Addr>, a: Addr, raw: RawCfg)
    requires a in known
  {
    match t
    case Target(p, _, _, _, _) =>
      ((raw == known[a] || (Affected(known, gone, a) && raw.blocks != [] && Rewalked(t, opts.caps, known, gone, a, raw))) &&
       (opts.Roomy() && a in p.code && Affected(known, gone, a) ==> Rewalked(t, opts.caps, known, gone, a, raw)))
  }

  method RefineOne(t: Target, opts: Options, known: Functions, gone: set<Addr>, a: Addr) returns (raw: RawCfg)
    requires t.p.Valid() && a in known
    ensures Replaced(t, opts, known, gone, a, raw)
  {
    raw := known[a];
    if Affected(known, gone, a) {
      var job := Again(t, known, gone, a);
      var again;
      ghost var ends, bodies;
      again, ends, bodies := BuildRaw(job, opts.caps);
      assert WalkOf(job, opts.caps, again, ends, bodies);
      if opts.Roomy() {
        NoBlocksIff(job, opts.caps, again, ends, bodies);
      }
      if again.blocks != [] {
        raw := again;
      }
    }
  }

  ghost predicate AllReplaced(t: Target, opts: Options, known: Functions, gone: set<Addr>, out: Functions) {
    out.Keys == known.Keys && forall a :: a in known ==> Replaced(t, opts, known, gone, a, out[a])
  }

  ghost predicate DoneAt(t: Target, opts: Options, known: Functions, gone: set<Addr>, out: Functions, a: Addr) {
    match t
    case Target(_, _, _, _, _) => (a in known && a in out && Replaced(t, opts, known, gone, a, out[a]))
  }

  /** The first `k` functions are done. */
  ghost predicate DoneTo(t: Target, opts: Options, known: Functions, gone: set<Addr>, out: Functions, order: seq<Addr>, k: nat)
    requires k <= |order|
  {
    match t
    case Target(_, _, _, _, _) =>
      (out.Keys == known.Keys && forall j :: 0 <= j < k ==> DoneAt(t, opts, known, gone, out, order[j]))
  }

  lemma DoneStep(t: Target, opts: Options, known: Functions, gone: set<Addr>, out: Functions, order: seq<Addr>, k: nat,
                 raw: RawCfg)
    requires k < |order| && order[k] in known && DoneTo(t, opts, known, gone, out, order, k)
    requires Replaced(t, opts, known, gone, order[k], raw)
    ensures DoneTo(t, opts, known, gone, out[order[k] := raw], order, k + 1)
  {
    var more := out[order[k] := raw];
    forall j | 0 <= j < k + 1 ensures DoneAt(t, opts, known, gone, more, order[j]) {
      DoneMore(t, opts, known, gone, out, order[k], raw, order[j]);
    }
  }

  lemma DoneMore(t: Target, opts: Options, known: Functions, gone: set<Addr>, out: Functions, a: Addr, raw: RawCfg, b: Addr)
    requires a in known && Replaced(t, opts, known, gone, a, raw)
    requires b == a || DoneAt(t, opts, known, gone, out, b)
    ensures DoneAt(t, opts, known, gone, out[a := raw], b)
  {
    if b != a {
      assert b in out && out[a := raw][b] == out[b];
    }
  }

  lemma DoneAll(t: Target, opts: Options, known: Functions, gone: set<Addr>, out: Functions)
    requires DoneTo(t, opts, known, gone, out, Sorted(known.Keys), |Sorted(known.Keys)|)
    ensures AllReplaced(t, opts, known, gone, out)
  {
    var order := Sorted(known.Keys);
    forall a | a in known ensures Replaced(t, opts, known, gone, a, out[a]) {
      var j :| 0 <= j < |order| && order[j] == a;
    }
  }

  method ReplaceAll(t: Target, opts: Options, known: Functions, gone: set<Addr>) returns (out: Functions)
    requires t.p.Valid()
    ensures AllReplaced(t, opts, known, gone, out)
  {
    out := known;
    var order := Sorted(known.Keys);
    for k := 0 to |order|
      invariant DoneTo(t, opts, known, gone, out, order, k)
    {
      assert order[k] in order;
      var raw := RefineOne(t, opts, known, gone, order[k]);
      DoneStep(t, opts, known, gone, out, order, k, raw);
      out := out[order[k] := raw];
    }
    DoneAll(t, opts, known, gone, out);
  }

  method RefineNoReturn(t: Target, opts: Options, enabled: bool, known: Functions, named: set<Addr>)
    returns (out: Functions, gone: set<Addr>)
    requires t.p.Valid()
    ensures if enabled then NoReturn.EndsAt(NoReturn.Climb(known, named, 8), gone) else gone == {}
    ensures if enabled then AllReplaced(t, opts, known, gone, out) else out == known
  {
    if !enabled {
      return known, {};
    }
    gone := NoReturn.Compute(named, known);
    out := ReplaceAll(t, opts, known, gone);
  }

  // ------------------------------------------------------------ only shortening

  /** The walk that could have given a function its graph in the first place. */
  ghost predicate FirstWalk(t: Target, opts: Options, stops: set<Addr>, f: Addr, raw: RawCfg, w: Trip) {
    Ran(w) && w.caps == opts.caps && w.raw == raw &&
    w.job.p == t.p && w.job.entry == f && w.job.noreturn == {} && w.job.stopAt <= stops
  }

  lemma FirstExists(t: Target, opts: Options, known: Functions, stops: set<Addr>, f: Addr) returns (w: Trip)
    requires Upheld(t, opts, known, stops) && f in known
    ensures FirstWalk(t, opts, stops, f, known[f], w)
  {
    var job: Job, ends, bodies :| WalkOf(job, opts.caps, known[f], ends, bodies) &&
      job.p == t.p && job.entry == f && job.noreturn == {} && job.stopAt <= stops;
    w := Trip(job, opts.caps, known[f], ends, bodies);
  }

  lemma SecondExists(t: Target, caps: Caps, known: Functions, gone: set<Addr>, f: Addr, raw: RawCfg) returns (w: Trip)
    requires Rewalked(t, caps, known, gone, f, raw)
    ensures Ran(w) && w.job == Again(t, known, gone, f) && w.raw == raw
  {
    var ends, bodies :| WalkOf(Again(t, known, gone, f), caps, raw, ends, bodies);
    w := Trip(Again(t, known, gone, f), caps, raw, ends, bodies);
  }

  /** What the first walk was told to stop at is a known function or decodes nowhere. */
  lemma StopsHeld(t: Target, opts: Options, known: Functions, stops: set<Addr>, first: Job, gone: set<Addr>, f: Addr)
    requires Upheld(t, opts, known, stops) && opts.Roomy()
    requires first.p == t.p && first.entry == f && first.noreturn == {} && first.stopAt <= stops
    ensures Tightens(first, Again(t, known, gone, f))
  {
  }

  /** Walking any function again, one evidence led to or one the sweep found,
      never adds an instruction to it, when its first walk was complete and tore
      nothing. */
  lemma RefiningShortens(t: Target, opts: Options, known: Functions, stops: set<Addr>, gone: set<Addr>, f: Addr, raw: RawCfg,
                         x: Addr)
    requires t.p.Valid() && Upheld(t, opts, known, stops) && opts.Roomy() && f in known && known[f].halt == Complete
    requires forall w :: FirstWalk(t, opts, stops, f, known[f], w) ==> Untorn(w.job)
    requires Replaced(t, opts, known, gone, f, raw) && Tiles(t.p, raw.blocks, x)
    ensures Tiles(t.p, known[f].blocks, x)
  {
    if raw != known[f] {
      var w := FirstExists(t, opts, known, stops, f);
      var again := SecondExists(t, opts.caps, known, gone, f, raw);
      StopsHeld(t, opts, known, stops, w.job, gone, f);
      RanFinished(w);
      RewalkOnlyShortens(w, again, x);
    }
  }

  // ------------------------------------------------------------ what walking again does

  /** A function that is not reported and calls a reported one is walked again, with
      the reported functions known never to return. */
  lemma WalkedAgain(t: Target, opts: Options, known: Functions, stops: set<Addr>, gone: set<Addr>, f: Addr, raw: RawCfg, c: Addr)
    requires t.p.Valid() && Upheld(t, opts, known, stops) && opts.Roomy() && f in known && Replaced(t, opts, known, gone, f, raw)
    requires f !in gone && c in known[f].calls && c in gone
    ensures From(Job(t.p, f, known.Keys, gone, {}), opts.caps, raw)
  {
    WalkedDecodes(t, opts, f, known[f], stops);
    assert c in known[f].calls * gone;
    var ends, bodies :| WalkOf(Again(t, known, gone, f), opts.caps, raw, ends, bodies);
  }

  /** After it no call to a reported function is followed: such a call is the last
      instruction of its block, which goes nowhere. */
  lemma NoneFallsThrough(t: Target, opts: Options, known: Functions, stops: set<Addr>, gone: set<Addr>, f: Addr, raw: RawCfg,
                         c: Addr, i: nat, k: nat, g: Addr)
    requires t.p.Valid() && Upheld(t, opts, known, stops) && opts.Roomy() && f in known && Replaced(t, opts, known, gone, f, raw)
    requires f !in gone && c in known[f].calls && c in gone
    requires i < |raw.blocks| && k < |Stream(t.p, raw.blocks[i].range.start, raw.blocks[i].range.end)|
    requires Stream(t.p, raw.blocks[i].range.start, raw.blocks[i].range.end)[k].flow == Call(g) && g in gone
    ensures var b := raw.blocks[i];
      var insns := Stream(t.p, b.range.start, b.range.end);
      k == |insns| - 1 && (insns[k].End() == b.range.end ==> b.successors == [] && b.terminator == NoReturnCall && !b.unresolved)
  {
    WalkedAgain(t, opts, known, stops, gone, f, raw, c);
    var w := WalkBehind(Job(t.p, f, known.Keys, gone, {}), opts.caps, raw);
    CallStops(w, i, k, g);
  }

  lemma CallStops(w: Trip, i: nat, k: nat, g: Addr)
    requires w.job.p.Valid() && Result(w.job, w.caps, w.raw, w.ends, w.bodies) && i < |w.raw.blocks|
    requires k < |Stream(w.job.p, w.raw.blocks[i].range.start, w.raw.blocks[i].range.end)|
    requires Stream(w.job.p, w.raw.blocks[i].range.start, w.raw.blocks[i].range.end)[k].flow == Call(g) && g in w.job.noreturn
    ensures var b := w.raw.blocks[i];
      var insns := Stream(w.job.p, b.range.start, b.range.end);
      k == |insns| - 1 && (insns[k].End() == b.range.end ==> b.successors == [] && b.terminator == NoReturnCall && !b.unresolved)
  {
    CallIsLast(w, i, k, g);
    BlockSays(w, i);
    CallSays(w.job, w.raw, w.raw.blocks[i], LastOf(w.job.p, w.raw.blocks[i]), g);
  }

  lemma CallIsLast(w: Trip, i: nat, k: nat, g: Addr)
    requires w.job.p.Valid() && Result(w.job, w.caps, w.raw, w.ends, w.bodies) && i < |w.raw.blocks|
    requires k < |Stream(w.job.p, w.raw.blocks[i].range.start, w.raw.blocks[i].range.end)|
    requires Stream(w.job.p, w.raw.blocks[i].range.start, w.raw.blocks[i].range.end)[k].flow == Call(g) && g in w.job.noreturn
    ensures var insns := Stream(w.job.p, w.raw.blocks[i].range.start, w.raw.blocks[i].range.end);
      k == |insns| - 1 && insns[k] == LastOf(w.job.p, w.raw.blocks[i])
  {
    if k + 1 < |Stream(w.job.p, w.raw.blocks[i].range.start, w.raw.blocks[i].range.end)| {
      InnerGoesOn(w, i, k);
    }
  }

  lemma CallSays(job: Job, raw: RawCfg, b: Block, last: Insn, g: Addr)
    requires last.flow == Call(g) && g in job.noreturn
    requires last.addr + last.len == b.range.end ==>
      Says(job, b, last) || (raw.halt != Complete && GivenUp(b) && Proceeds(job, last))
    ensures last.End() == b.range.end ==> b.successors == [] && b.terminator == NoReturnCall && !b.unresolved
  {
    NoneListed(b.successors);
  }

  // ------------------------------------------------ a swept function may grow

  /** A conditional branch over a call, to a word that is data but decodes. */
  function PoolProgram(): (p: Program)
    ensures p.Valid()
  {
    Program(map[0 := Insn(0, 4, CondBranch(8)), 4 := Insn(4, 4, Call(100)), 8 := Insn(8, 4, Flow.Return)], {0, 4, 8}, map[])
  }

  function SweptWalk(): Job {
    Job(PoolProgram(), 0, {0}, {}, {8})
  }

  function RefinedWalk(): Job {
    Job(PoolProgram(), 0, {0}, {100}, {})
  }

  lemma PoolFacts(job: Job)
    requires job == RefinedWalk() || job == SweptWalk()
    ensures job.Reachable(8) && job.NoOverlap()
  {
    EntryReachable(job);
    assert job.Exits(job.p.code[0]) == [8, 4];
    assert job.Step(0, 8);
    StepReachable(job, 0, 8);
  }

  lemma PoolLandings(job: Job)
    requires job == RefinedWalk()
    ensures forall s :: job.Landing(s) ==> s in [0, 4, 8]
  {
    forall s | job.Landing(s) ensures s in [0, 4, 8] {
      if s != 0 {
        var x :| job.Lands(x, s);
        assert x == 0;
      }
    }
  }

  lemma RefinedAmple(job: Job, caps: Caps)
    requires job == RefinedWalk() && caps.functionBlocks >= 3 && caps.functionInsns > 9
    ensures Ample(job, caps, [0, 4, 8], [0, 4, 8]) && AllDecode(job)
  {
    PoolLandings(job);
    AllDecodeBy(job, {0, 4, 8});
  }

  /** The first walk was cut off at the data, and does not hold it. */
  lemma PoolNotSwept(w: Trip)
    requires Ran(w) && w.job == SweptWalk()
    ensures w.raw.halt != Complete && !Tiles(w.job.p, w.raw.blocks, 8)
  {
    PoolFacts(w.job);
    if w.raw.halt == Complete {
      CompleteDecodes(w);
    }
    if Tiles(w.job.p, w.raw.blocks, 8) {
      TilesOnlyReachable(w.job, w.caps, w.raw, w.ends, w.bodies, 8);
    }
  }

  /** A function first walked around data was cut off at it; walked again with no
      data known, and room enough, it is walked whole and takes the data in. */
  lemma SweptMayGrow(w: Trip, again: Trip)
    requires Ran(w) && w.job == SweptWalk() && Ran(again) && again.job == RefinedWalk() && again.caps == w.caps
    requires w.caps.functionBlocks >= 3 && w.caps.functionInsns > 9
    ensures w.raw.halt != Complete && again.raw.halt == Complete
    ensures !Tiles(w.job.p, w.raw.blocks, 8) && Tiles(again.job.p, again.raw.blocks, 8)
  {
    PoolNotSwept(w);
    PoolFacts(again.job);
    RefinedAmple(again.job, again.caps);
    Finishes(again, [0, 4, 8], [0, 4, 8]);
    ReachableIsTiled(again.job, again.caps, again.raw, again.ends, again.bodies, 8);
  }

  // ---------------------------------------------- and so may one a cap cut off

  /** A branch to one of two calls, each with a return after it. */
  function ForkProgram(): (p: Program)
    ensures p.Valid()
  {
    Program(map[0 := Insn(0, 1, CondBranch(10)), 1 := Insn(1, 1, Call(100)), 2 := Insn(2, 1, Flow.Return),
                10 := Insn(10, 1, Call(100)), 11 := Insn(11, 1, Flow.Return)], {0, 1, 2, 10, 11}, map[])
  }

  function LedWalk(): Job {
    Job(ForkProgram(), 0, {0}, {}, {})
  }

  function ShortWalk(): Job {
    Job(ForkProgram(), 0, {0}, {100}, {})
  }

  lemma ForkReaches(job: Job)
    requires job == LedWalk() || job == ShortWalk()
    ensures job.Reachable(1) && job.Reachable(10)
  {
    EntryReachable(job);
    assert job.Exits(job.p.code[0]) == [10, 1];
    assert job.Step(0, 1) && job.Step(0, 10);
    StepReachable(job, 0, 1);
    StepReachable(job, 0, 10);
  }

  lemma ForkApart(job: Job)
    requires job == LedWalk() || job == ShortWalk()
    ensures job.NoOverlap()
  {
    forall a, b | job.Decodable(a) && job.Decodable(b) && a < b ensures job.p.code[a].End() <= b {
    }
  }

  lemma ForkExits(job: Job, x: Addr, a: Addr)
    requires (job == LedWalk() || job == ShortWalk()) && x in job.p.code && a in job.Exits(job.p.code[x])
    ensures a == 1 || a == 10
  {
    assert x in {0, 1, 2, 10, 11};
  }

  lemma ForkLandings(job: Job, a: Addr)
    requires (job == LedWalk() || job == ShortWalk()) && job.Landing(a)
    ensures a in [0, 1, 10]
  {
    if a != job.entry {
      var x :| job.Lands(x, a);
      ForkExits(job, x, a);
    }
  }

  lemma ForkDecodes(job: Job)
    requires job == ShortWalk()
    ensures AllDecode(job)
  {
    AllDecodeBy(job, {0, 1, 10});
  }

  /** A run from one of the calls that decodes only the call was cut short. */
  lemma ForkShort(w: Trip, s: Addr)
    requires w.job == LedWalk() && RunAt(w, s) && (s == 1 || s == 10) && |w.bodies[s]| == 1 && s + 1 !in w.ends
    ensures CutShort(w.job, w.ends, w.bodies, s)
  {
  }

  lemma NoStart(w: Trip, a: Addr)
    requires AllRuns(w) && w.job == LedWalk() && (a == 2 || a == 11)
    ensures a !in w.ends
  {
    if a in w.ends {
      assert RunAt(w, a);
      ForkPast(w.job, a);
    }
  }

  lemma ForkPast(job: Job, a: Addr)
    requires job == LedWalk() && (a == 2 || a == 11)
    ensures !job.Landing(a)
  {
    if job.Landing(a) {
      ForkLandings(job, a);
    }
  }

  lemma ForkCut(w: Trip, s: Addr)
    requires AllRuns(w) && w.job == LedWalk() && s in w.ends && (s == 1 || s == 10) && |w.bodies[s]| == 1
    ensures CutShort(w.job, w.ends, w.bodies, s)
  {
    NoStart(w, s + 1);
    ForkShort(w, s);
  }

  lemma ForkRun(w: Trip, a: Addr)
    requires Ran(w) && w.job == LedWalk() && (a == 1 || a == 10) && Tiles(w.job.p, w.raw.blocks, a)
    ensures a in w.ends && w.bodies[a] != []
  {
    TilesExactly(w.job, w.caps, w.raw, w.ends, w.bodies, a);
    var s :| Kept(w.ends, w.bodies, s, a);
    RanRuns(w);
    ForkLandings(w.job, s);
    ForkHolds(w, s, a);
  }

  lemma ForkHolds(w: Trip, s: Addr, a: Addr)
    requires w.job == LedWalk() && RunAt(w, s) && s in [0, 1, 10] && (a == 1 || a == 10) && InRun(w.bodies, s, a)
    ensures s == a && w.bodies[s] != []
  {
    var k :| 0 <= k < |w.bodies[s]| && w.bodies[s][k].addr == a;
    ForkWithin(w.job, s, w.bodies[s], k);
  }

  lemma ForkWithin(job: Job, s: Addr, body: seq<Insn>, k: nat)
    requires job == LedWalk() && Chain(job, s, body) && k < |body| && (s == 0 || s == 1 || s == 10)
    ensures body[k].addr == 1 ==> s == 1
    ensures body[k].addr == 10 ==> s == 10
  {
    if k > 0 {
      assert job.Falls(body[0]);
      assert k > 1 ==> job.Falls(body[1]);
    }
  }

  lemma ForkBegun(w: Trip)
    requires Ran(w) && w.job == LedWalk() && w.caps.functionInsns > 0 && 1 in w.ends
    ensures 0 in w.ends && w.bodies[0] != []
  {
    assert 1 in w.ends.Keys && |w.ends.Keys| == |w.ends|;
  }

  lemma ForkTooLong(w: Trip)
    requires Ran(w) && w.job == LedWalk() && w.caps.functionInsns == 3
    ensures !Tiles(w.job.p, w.raw.blocks, 1) || !Tiles(w.job.p, w.raw.blocks, 10)
  {
    if Tiles(w.job.p, w.raw.blocks, 1) && Tiles(w.job.p, w.raw.blocks, 10) {
      ForkRun(w, 1);
      ForkRun(w, 10);
      ForkBegun(w);
      RanRuns(w);
      SpentThree(w.bodies);
      ForkCut(w, 1);
      ForkCut(w, 10);
      assert false;
    }
  }

  lemma SpentThree(bodies: map<Addr, seq<Insn>>)
    requires 0 in bodies && 1 in bodies && 10 in bodies
    ensures |bodies[0]| + |bodies[1]| + |bodies[10]| <= Spent(bodies)
  {
    SpentAny(bodies, 0);
    SpentAny(bodies - {0}, 1);
    SpentAny(bodies - {0} - {1}, 10);
  }

  /** A run of the second walk is one instruction long, or empty when cut off. */
  lemma ShortRun(w: Trip, s: Addr)
    requires w.job == ShortWalk() && RunAt(w, s) && s in [0, 1, 10]
    ensures |w.bodies[s]| <= 1 && (CutOff(w.job, w.bodies[s], w.ends[s]) ==> w.bodies[s] == [])
  {
    assert |w.bodies[s]| > 1 ==> w.job.Falls(w.bodies[s][0]);
  }

  lemma ShortRuns(w: Trip, s: Addr)
    requires AllRuns(w) && w.job == ShortWalk() && s in w.ends
    ensures s in [0, 1, 10] && |w.bodies[s]| <= 1 && (CutOff(w.job, w.bodies[s], w.ends[s]) ==> w.bodies[s] == [])
  {
    ForkLandings(w.job, s);
    ShortRun(w, s);
  }

  /** Three instructions are enough for the second walk. */
  lemma ShortFinishes(w: Trip)
    requires Ran(w) && w.job == ShortWalk() && w.caps.functionInsns == 3 && w.caps.functionBlocks >= 3
    ensures Finished(w)
  {
    RanRuns(w);
    ForkDecodes(w.job);
    ShortNeither(w);
    if w.raw.halt == Undecodable {
      UndecodableReached(w);
    }
  }

  lemma ShortNeither(w: Trip)
    requires AllRuns(w) && Ceased(w) && w.job == ShortWalk() && w.caps.functionInsns == 3 && w.caps.functionBlocks >= 3
    ensures w.raw.halt == Complete || w.raw.halt == Undecodable
  {
    forall s | s in w.ends ensures s in Elems([0, 1, 10]) && |w.bodies[s]| <= 1 {
      ShortRuns(w, s);
    }
    if w.raw.halt == BlockCap {
      var t: Addr :| w.job.Landing(t) && t !in w.ends;
      ForkLandings(w.job, t);
      FewerBlocks(w.ends, [0, 1, 10], t);
    } else if w.raw.halt == InstructionCap {
      var s :| CutOffAt(w.job, w.ends, w.bodies, s);
      ShortRuns(w, s);
      ShortSpends(w.bodies, s);
    }
  }

  lemma ShortSpends(bodies: map<Addr, seq<Insn>>, s: Addr)
    requires s in bodies && bodies[s] == [] && bodies.Keys <= Elems([0, 1, 10])
    requires forall x :: x in bodies ==> |bodies[x]| <= 1
    ensures Spent(bodies) <= 2
  {
    SpentAny(bodies, s);
    SpentFits(bodies - {s}, 1);
    FewerKeys(bodies, [0, 1, 10]);
    assert |bodies - {s}| == |bodies| - 1;
  }

  /** A function a cap cut off may gain an instruction even though evidence led to
      it: calls that do not return leave the cap to the rest. */
  lemma CappedMayGrow(w: Trip, again: Trip)
    requires Ran(w) && w.job == LedWalk() && Ran(again) && again.job == ShortWalk() && again.caps == w.caps
    requires w.caps.functionInsns == 3 && w.caps.functionBlocks >= 3
    ensures w.raw.halt != Complete && again.raw.halt == Complete
    ensures exists x :: !Tiles(w.job.p, w.raw.blocks, x) && Tiles(again.job.p, again.raw.blocks, x)
  {
    ForkReaches(w.job);
    ForkReaches(again.job);
    ForkApart(w.job);
    ForkApart(again.job);
    ForkTooLong(w);
    ShortFinishes(again);
    ReachableIsTiled(again.job, again.caps, again.raw, again.ends, again.bodies, 1);
    ReachableIsTiled(again.job, again.caps, again.raw, again.ends, again.bodies, 10);
    if w.raw.halt == Complete {
      ReachableIsTiled(w.job, w.caps, w.raw, w.ends, w.bodies, 1);
      ReachableIsTiled(w.job, w.caps, w.raw, w.ends, w.bodies, 10);
    }
  }
}
