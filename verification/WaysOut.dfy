/** What the no-return rule says about where control goes: the ways out of a
    walked function, and when a function it reports can come back after all
    (crates/e5r-analysis/src/noreturn.rs). */
module WaysOut {
  import opened Ordered
  import opened Image
  import opened Walk
  import opened Blocks
  import opened WalkTheorems
  import opened Tiling
  import opened Halting
  import opened NoReturn
  import opened CallChains

  // ------------------------------------------------------------------ blocks and ways out

  /** Control that gets here goes nowhere else in the function. */
  ghost predicate Ends(job: Job, x: Addr) {
    match job
    case Job(p, _, _, _, data) =>
      (job.Reachable(x) && x in p.code && x !in data && !job.Falls(p.code[x]) && job.Exits(p.code[x]) == [])
  }

  /** A walk that finished, over an image whose instructions do not overlap. */
  ghost predicate Whole(w: Trip) {
    match w
    case Trip(job, _, _, _, _) => (Finished(w) && job.NoOverlap())
  }

  /** The last instruction of a run is one control reaches. */
  lemma ChainLast(job: Job, s: Addr, body: seq<Insn>) returns (last: Insn)
    requires job.p.Valid() && Walk.Chain(job, s, body) && body != [] && job.Reachable(s)
    ensures last == body[|body| - 1] && last.addr in job.p.code && last == job.p.code[last.addr]
    ensures job.Reachable(last.addr) && job.Decodable(last.addr)
  {
    last := body[|body| - 1];
    RunReachable(job, s, body, |body| - 1);
  }

  lemma RunEnds(job: Job, ends: map<Addr, Ending>, bodies: map<Addr, seq<Insn>>, s: Addr) returns (x: Addr)
    requires job.p.Valid() && CompleteRuns(job, ends, bodies) && s in ends && SplitBlock(job.p, ends, s).successors == []
    ensures Ends(job, x) && SplitBlock(job.p, ends, s).terminator == job.EndsAs(job.p.code[x])
  {
    StartDecodes(job, ends, bodies, s);
    var last := ChainLast(job, s, bodies[s]);
    x := last.addr;
    ExitEnds(job, s, bodies[s], ends[s], ends.Keys, last);
  }

  lemma ExitEnds(job: Job, s: Addr, body: seq<Insn>, e: Ending, starts: set<Addr>, last: Insn)
    requires body != [] && last == body[|body| - 1] && last.addr in job.p.code && last == job.p.code[last.addr]
    requires job.Reachable(last.addr) && job.Decodable(last.addr) && e.succs == []
    requires Joined(job, s, body, e, starts) || Exited(job, s, body, e)
    ensures Ends(job, last.addr) && e.term == job.EndsAs(last)
  {
    NoElems(job.Exits(last));
  }

  /** A block with no successors ends at an instruction control ends at. */
  lemma BlockEnds(w: Trip, i: nat) returns (x: Addr)
    requires Whole(w) && i < |w.raw.blocks| && w.raw.blocks[i].successors == []
    ensures Ends(w.job, x) && w.raw.blocks[i].terminator == w.job.EndsAs(w.job.p.code[x])
  {
    BlockOfRun(w.job, w.caps, w.raw, w.ends, w.bodies, i);
    x := RunEnds(w.job, w.ends, w.bodies, w.raw.blocks[i].range.start);
  }

  lemma NoElems(xs: seq<Addr>)
    ensures Elems(xs) == {} <==> xs == []
  {
    if xs != [] {
      assert xs[0] in Elems(xs);
    }
  }

  /** And the other way round. */
  lemma EndsBlock(w: Trip, x: Addr) returns (i: nat)
    requires Whole(w) && Ends(w.job, x)
    ensures i < |w.raw.blocks| && w.raw.blocks[i].successors == []
    ensures w.raw.blocks[i].terminator == w.job.EndsAs(w.job.p.code[x])
  {
    ReachableIsTiled(w.job, w.caps, w.raw, w.ends, w.bodies, x);
    var k;
    i, k :| 0 <= i < |w.raw.blocks| && InBlock(w.job.p, w.raw.blocks[i], k, x);
    TileIsKept(w.job, w.caps, w.raw, w.ends, w.bodies, i, k, x);
    BlockOfRun(w.job, w.caps, w.raw, w.ends, w.bodies, i);
    LastEnds(w.job, w.ends, w.bodies, w.raw.blocks[i].range.start, x);
  }

  lemma LastEnds(job: Job, ends: map<Addr, Ending>, bodies: map<Addr, seq<Insn>>, s: Addr, x: Addr)
    requires job.p.Valid() && CompleteRuns(job, ends, bodies) && job.NoOverlap()
    requires Kept(ends, bodies, s, x) && Ends(job, x)
    ensures s in ends
    ensures var b := SplitBlock(job.p, ends, s); b.successors == [] && b.terminator == job.EndsAs(job.p.code[x])
  {
    StartDecodes(job, ends, bodies, s);
    var body := bodies[s];
    var k :| 0 <= k < |body| && body[k].addr == x;
    assert body[k] == job.p.code[x];
    assert k == |body| - 1;
    if Cut(ends, s).Some? {
      var c := Cut(ends, s).value;
      StartDecodes(job, ends, bodies, c);
    }
    assert Elems(ends[s].succs) == {};
    NoElems(ends[s].succs);
  }

  // ------------------------------------------------------------------ the rule, by instructions

  /** Some instruction control reaches calls, or branches out to, one of these. */
  ghost predicate CallsOne(job: Job, gone: set<Addr>) {
    match job
    case Job(_, _, _, _, _) => exists a, t :: CallsHere(job, a, t) && t in gone
  }

  ghost predicate CallsHere(job: Job, a: Addr, t: Addr) {
    match job
    case Job(p, _, _, _, _) => job.Reachable(a) && a in p.code && t in job.CallsOf(p.code[a])
  }

  /** What the rule asks of a place control ends at. */
  ghost predicate DeadWay(job: Job, x: Addr, gone: set<Addr>)
  {
    match job
    case Job(p, _, _, _, _) =>
      (x in p.code &&
       (job.EndsAs(p.code[x]) == Terminator.Trap || job.EndsAs(p.code[x]) == NoReturnCall ||
        (job.EndsAs(p.code[x]) == TailCall && CallsOne(job, gone))))
  }

  /** A block that ends at an instruction is a dead end exactly when it is one. */
  lemma DeadSame(job: Job, x: Addr, b: Block, calls: set<Addr>, gone: set<Addr>)
    requires x in job.p.code && b.terminator == job.EndsAs(job.p.code[x])
    requires CallsOne(job, gone) <==> exists c :: c in calls && c in gone
    ensures DeadEnd(b, calls, gone) <==> DeadWay(job, x, gone)
  {
  }

  ghost predicate Judged(job: Job, gone: set<Addr>) {
    match job case Job(_, _, _, _, _) => (exists x :: Ends(job, x)) && forall x :: Ends(job, x) ==> DeadWay(job, x, gone)
  }

  /** The rule on a walked function's blocks is a statement about the
      instructions control can reach. */
  lemma StuckIff(w: Trip, gone: set<Addr>)
    requires Whole(w)
    ensures Stuck(w.raw, gone) <==> Judged(w.job, gone)
  {
    if Stuck(w.raw, gone) {
      StuckJudged(w, gone);
    }
    if Judged(w.job, gone) {
      JudgedStuck(w, gone);
    }
  }

  lemma CallsOneIff(w: Trip, gone: set<Addr>)
    requires Whole(w)
    ensures CallsOne(w.job, gone) <==> exists c :: c in w.raw.calls && c in gone
  {
    if a, t :| CallsHere(w.job, a, t) && t in gone {
      CallsExact(w.job, w.caps, w.raw, w.ends, w.bodies, t);
    }
    if c :| c in w.raw.calls && c in gone {
      CallsExact(w.job, w.caps, w.raw, w.ends, w.bodies, c);
      var a :| w.job.Reachable(a) && a in w.job.p.code && c in w.job.CallsOf(w.job.p.code[a]);
      assert CallsHere(w.job, a, c);
    }
  }

  lemma StuckJudged(w: Trip, gone: set<Addr>)
    requires Whole(w) && Stuck(w.raw, gone)
    ensures Judged(w.job, gone)
  {
    CallsOneIff(w, gone);
    var b :| b in w.raw.blocks && b.successors == [];
    var i :| 0 <= i < |w.raw.blocks| && w.raw.blocks[i] == b;
    var y := BlockEnds(w, i);
    forall x | Ends(w.job, x) ensures DeadWay(w.job, x, gone) {
      var j := EndsBlock(w, x);
      assert w.raw.blocks[j] in w.raw.blocks;
      DeadSame(w.job, x, w.raw.blocks[j], w.raw.calls, gone);
    }
  }

  lemma JudgedStuck(w: Trip, gone: set<Addr>)
    requires Whole(w) && Judged(w.job, gone)
    ensures Stuck(w.raw, gone)
  {
    CallsOneIff(w, gone);
    var x :| Ends(w.job, x);
    var j := EndsBlock(w, x);
    assert w.raw.blocks[j] in w.raw.blocks;
    forall b | b in w.raw.blocks && b.successors == [] ensures DeadEnd(b, w.raw.calls, gone) {
      var i :| 0 <= i < |w.raw.blocks| && w.raw.blocks[i] == b;
      var y := BlockEnds(w, i);
      DeadSame(w.job, y, b, w.raw.calls, gone);
    }
    Followed(w, gone);
  }

  lemma Followed(w: Trip, gone: set<Addr>)
    requires Whole(w) && Judged(w.job, gone)
    ensures !w.raw.hasIndirect && w.raw.halt == Complete
  {
    if w.raw.hasIndirect {
      var s :| s in w.bodies && EndsUnfollowed(w.job, w.bodies[s]);
      UnfollowedEnds(w.job, w.ends, w.bodies, s, gone);
    }
  }

  lemma UnfollowedEnds(job: Job, ends: map<Addr, Ending>, bodies: map<Addr, seq<Insn>>, s: Addr, gone: set<Addr>)
    requires job.p.Valid() && CompleteRuns(job, ends, bodies) && s in ends && EndsUnfollowed(job, bodies[s])
    ensures !Judged(job, gone)
  {
    StartDecodes(job, ends, bodies, s);
    var last := ChainLast(job, s, bodies[s]);
    UnfollowedLast(job, last.addr, gone);
  }

  lemma UnfollowedLast(job: Job, x: Addr, gone: set<Addr>)
    requires job.Reachable(x) && job.Decodable(x) && job.Unfollowed(job.p.code[x])
    ensures !Judged(job, gone)
  {
    assert Ends(job, x) && !DeadWay(job, x, gone);
  }

  // ------------------------------------------------------------------ coming back

  /** A branch out of the function, conditional or not, that control reaches. */
  ghost predicate Tails(job: Job, x: Addr, t: Addr) {
    match job
    case Job(p, _, _, _, data) =>
      (job.Reachable(x) && x in p.code && x !in data && job.Leaves(t) &&
       (p.code[x].flow == Flow.Branch(t) || p.code[x].flow == CondBranch(t)))
  }

  /** A return, or a branch nobody followed, that control reaches. */
  ghost predicate Returns(job: Job, x: Addr) {
    match job
    case Job(p, _, _, _, data) =>
      (job.Reachable(x) && x in p.code && x !in data && (p.code[x].flow == Flow.Return || job.Unfollowed(p.code[x])))
  }

  /** Control can get back to the caller by way of this function, if exactly the
      functions in `gone` never come back: by a return, by a branch to a function
      that comes back, or by a branch nobody followed. */
  ghost predicate ComesBack(job: Job, gone: set<Addr>) {
    match job case Job(_, _, _, _, _) => (exists x :: Returns(job, x)) || exists x, t :: Tails(job, x, t) && t !in gone
  }

  /** Every branch out goes to a function that never comes back. */
  ghost predicate TailsHeld(job: Job, gone: set<Addr>) {
    match job case Job(_, _, _, _, _) => forall x, t :: Tails(job, x, t) ==> t in gone
  }

  /** What the rule accepts reaches no return and no unfollowed branch: control
      can only get back by a branch out of the function, conditional or not. */
  lemma StuckNeverReturns(w: Trip, gone: set<Addr>)
    requires Whole(w) && Stuck(w.raw, gone)
    ensures NeverReturns(w.job)
    ensures !ComesBack(w.job, gone) <==> TailsHeld(w.job, gone)
  {
    StuckJudged(w, gone);
    JudgedNever(w.job, gone);
  }

  /** No return and no unfollowed branch is ever reached. */
  ghost predicate NeverReturns(job: Job) {
    match job case Job(_, _, _, _, _) => forall x :: !Returns(job, x)
  }

  lemma JudgedNever(job: Job, gone: set<Addr>)
    requires Judged(job, gone)
    ensures NeverReturns(job)
    ensures !ComesBack(job, gone) <==> TailsHeld(job, gone)
  {
    forall x ensures !Returns(job, x) {
      NoWayBack(job, x, gone);
    }
  }

  lemma NoWayBack(job: Job, x: Addr, gone: set<Addr>)
    requires Judged(job, gone)
    ensures !Returns(job, x)
  {
    assert Ends(job, x) ==> DeadWay(job, x, gone);
  }

  /** Some run through at most `n` functions comes back out of this one. What is
      not a walked function may always come back; the named ones never do. */
  ghost predicate MayReturn(jobs: map<Addr, Job>, named: set<Addr>, f: Addr, n: nat)
    decreases n, 0
  {
    n > 0 && f !in named && (f in jobs ==> WayBack(jobs, named, f, n - 1))
  }

  ghost predicate WayBack(jobs: map<Addr, Job>, named: set<Addr>, f: Addr, n: nat)
    requires f in jobs
    decreases n, 1
  {
    (exists x :: Returns(jobs[f], x)) || exists x, t :: Tails(jobs[f], x, t) && MayReturn(jobs, named, t, n)
  }

  /** A function either was named, or the rule holds of it in what is reported. */
  ghost predicate Backed(graph: Graph, named: set<Addr>, gone: set<Addr>) {
    forall a :: a in gone && a !in named ==> a in graph && Stuck(graph[a], gone)
  }

  lemma BackedGrows(graph: Graph, named: set<Addr>, few: set<Addr>, a: Addr)
    requires Backed(graph, named, few) && a in graph && Stuck(graph[a], few)
    ensures Backed(graph, named, few + {a})
  {
    forall x | x in few + {a} && x !in named ensures x in graph && Stuck(graph[x], few + {a}) {
      StuckGrows(graph[x], few, few + {a});
    }
  }

  lemma {:induction false} PassBacked(graph: Graph, order: seq<Addr>, named: set<Addr>, gone: set<Addr>)
    requires (forall a :: a in order ==> a in graph) && Backed(graph, named, gone)
    ensures Backed(graph, named, Pass(graph, order, gone))
  {
    if order != [] {
      var less, last := order[..|order| - 1], order[|order| - 1];
      PassBacked(graph, less, named, gone);
      if Stuck(graph[last], Pass(graph, less, gone)) {
        BackedGrows(graph, named, Pass(graph, less, gone), last);
      }
    }
  }

  /** Whatever is reported, in however many rounds, backs itself. */
  lemma {:induction false} RoundsBacked(graph: Graph, named: set<Addr>, gone: set<Addr>, n: nat)
    requires Backed(graph, named, gone)
    ensures Backed(graph, named, Rounds(graph, gone, n))
    decreases n
  {
    if n > 0 && Round(graph, gone) != gone {
      PassBacked(graph, Sorted(graph.Keys), named, gone);
      RoundsBacked(graph, named, Round(graph, gone), n - 1);
    }
  }

  /** A function with its graph: the graph a complete walk of it gave. */
  ghost predicate WalkedWhole(job: Job, raw: RawCfg) {
    exists w: Trip :: w.job == job && w.raw == raw && Whole(w)
  }

  lemma WholeNever(job: Job, raw: RawCfg, gone: set<Addr>)
    requires WalkedWhole(job, raw) && Stuck(raw, gone)
    ensures NeverReturns(job)
  {
    var w: Trip :| w.job == job && w.raw == raw && Whole(w);
    StuckNeverReturns(w, gone);
  }

  /** No reported function that was not named has a return of its own. */
  ghost predicate NoneReturns(jobs: map<Addr, Job>, named: set<Addr>, gone: set<Addr>) {
    forall a :: a in gone && a !in named ==> a in jobs && NeverReturns(jobs[a])
  }

  /** All of them branch out only to reported functions. */
  ghost predicate AllHeld(jobs: map<Addr, Job>, named: set<Addr>, gone: set<Addr>) {
    forall a :: a in gone && a !in named && a in jobs ==> TailsHeld(jobs[a], gone)
  }

  /** Nothing reported comes back, through any number of functions. */
  ghost predicate NoneComesBack(jobs: map<Addr, Job>, named: set<Addr>, gone: set<Addr>) {
    forall f, n: nat :: f in gone ==> !MayReturn(jobs, named, f, n)
  }

  /** Everything that is not reported may come back. */
  ghost predicate OthersReturn(jobs: map<Addr, Job>, named: set<Addr>, gone: set<Addr>) {
    forall t :: t !in gone ==> exists n: nat :: MayReturn(jobs, named, t, n)
  }

  lemma {:induction false} HeldNeverReturn(jobs: map<Addr, Job>, named: set<Addr>, gone: set<Addr>, f: Addr, n: nat)
    requires NoneReturns(jobs, named, gone) && AllHeld(jobs, named, gone) && f in gone
    ensures !MayReturn(jobs, named, f, n)
    decreases n
  {
    if n > 0 && f !in named {
      forall x, t | Tails(jobs[f], x, t) ensures !MayReturn(jobs, named, t, n - 1) {
        HeldNeverReturn(jobs, named, gone, t, n - 1);
      }
    }
  }

  lemma TailMayReturn(jobs: map<Addr, Job>, named: set<Addr>, a: Addr, x: Addr, t: Addr, n: nat)
    requires a in jobs && a !in named && Tails(jobs[a], x, t) && MayReturn(jobs, named, t, n)
    ensures MayReturn(jobs, named, a, n + 1)
  {
    assert WayBack(jobs, named, a, n);
  }

  lemma NeverMeansHeld(jobs: map<Addr, Job>, named: set<Addr>, gone: set<Addr>, a: Addr)
    requires OthersReturn(jobs, named, gone) && NoneComesBack(jobs, named, gone) && a in gone && a !in named && a in jobs
    ensures TailsHeld(jobs[a], gone)
  {
    forall x, t | Tails(jobs[a], x, t) && t !in gone ensures exists n: nat :: MayReturn(jobs, named, a, n) {
      var n: nat :| MayReturn(jobs, named, t, n);
      TailMayReturn(jobs, named, a, x, t, n);
    }
  }

  lemma HeldIff(jobs: map<Addr, Job>, named: set<Addr>, gone: set<Addr>)
    requires NoneReturns(jobs, named, gone)
    ensures AllHeld(jobs, named, gone) ==> NoneComesBack(jobs, named, gone)
    ensures OthersReturn(jobs, named, gone) && NoneComesBack(jobs, named, gone) ==> AllHeld(jobs, named, gone)
  {
    if AllHeld(jobs, named, gone) {
      forall f, n: nat | f in gone ensures !MayReturn(jobs, named, f, n) {
        HeldNeverReturn(jobs, named, gone, f, n);
      }
    }
    if OthersReturn(jobs, named, gone) && NoneComesBack(jobs, named, gone) {
      forall a | a in gone && a !in named && a in jobs ensures TailsHeld(jobs[a], gone) {
        NeverMeansHeld(jobs, named, gone, a);
      }
    }
  }

  ghost predicate MayComeBack(jobs: map<Addr, Job>, named: set<Addr>, f: Addr) {
    exists n: nat :: MayReturn(jobs, named, f, n)
  }

  ghost predicate TailsTo(job: Job, t: Addr) {
    exists x :: Tails(job, x, t)
  }

  /** A way by branches out, from reported functions that were not named, to one
      that is not reported. */
  ghost predicate TailsOut(jobs: map<Addr, Job>, named: set<Addr>, gone: set<Addr>, path: seq<Addr>) {
    path != [] &&
    if |path| == 1 then path[0] !in gone
    else path[0] in gone && path[0] !in named && path[0] in jobs && TailsTo(jobs[path[0]], path[1]) &&
         TailsOut(jobs, named, gone, path[1..])
  }

  /** Such a way ends at a function that may come back. */
  ghost predicate Escapes(jobs: map<Addr, Job>, named: set<Addr>, gone: set<Addr>, f: Addr, path: seq<Addr>) {
    TailsOut(jobs, named, gone, path) && path[0] == f && MayComeBack(jobs, named, path[|path| - 1])
  }

  lemma {:induction false} EscapeFound(jobs: map<Addr, Job>, named: set<Addr>, gone: set<Addr>, f: Addr, n: nat)
    returns (path: seq<Addr>)
    requires NoneReturns(jobs, named, gone) && f in gone && MayReturn(jobs, named, f, n)
    ensures Escapes(jobs, named, gone, f, path)
    decreases n
  {
    assert WayBack(jobs, named, f, n - 1);
    var x, t: Addr :| Tails(jobs[f], x, t) && MayReturn(jobs, named, t, n - 1);
    var rest: seq<Addr> := [t];
    if t in gone {
      rest := EscapeFound(jobs, named, gone, t, n - 1);
    }
    path := [f] + rest;
    assert path[1..] == rest && path[|path| - 1] == rest[|rest| - 1];
  }

  lemma {:induction false} EscapeReturns(jobs: map<Addr, Job>, named: set<Addr>, gone: set<Addr>, path: seq<Addr>, n: nat)
    returns (m: nat)
    requires TailsOut(jobs, named, gone, path) && MayReturn(jobs, named, path[|path| - 1], n)
    ensures MayReturn(jobs, named, path[0], m)
    decreases |path|
  {
    m := n;
    if |path| > 1 {
      var rest := path[1..];
      assert rest[|rest| - 1] == path[|path| - 1];
      m := EscapeReturns(jobs, named, gone, rest, n);
      var x :| Tails(jobs[path[0]], x, path[1]);
      TailMayReturn(jobs, named, path[0], x, path[1], m);
      m := m + 1;
    }
  }

  /** A reported function may come back if and only if branches out lead from it,
      through reported functions, to one that is not reported and may. */
  lemma ComesBackIff(jobs: map<Addr, Job>, named: set<Addr>, gone: set<Addr>, f: Addr)
    requires NoneReturns(jobs, named, gone) && f in gone
    ensures MayComeBack(jobs, named, f) <==> exists path :: Escapes(jobs, named, gone, f, path)
  {
    if n: nat :| MayReturn(jobs, named, f, n) {
      var path := EscapeFound(jobs, named, gone, f, n);
    }
    if path :| Escapes(jobs, named, gone, f, path) {
      var n: nat :| MayReturn(jobs, named, path[|path| - 1], n);
      var m := EscapeReturns(jobs, named, gone, path, n);
    }
  }

  /** What eight rounds find, said of the graph: the named functions and those with a
      chain of calls down that goes up in memory at most seven times. */
  ghost predicate Found(graph: Graph, named: set<Addr>, f: Addr) {
    f in named || exists path :: ChainFrom(graph, named, f, path) && Ascents(named, path) < 8
  }

  /** All of them. */
  ghost function AllFound(graph: Graph, named: set<Addr>): set<Addr> {
    named + set f | f in graph && Found(graph, named, f)
  }

  /** When what `Compute` reports is right, said of the graph and the walks alone: a
      function it reports may come back if and only if branches out lead from it,
      through functions with such a chain, to one without that may; so none does if
      every branch out of one goes to one, and only if, when all others may. */
  lemma ReportedRightIff(jobs: map<Addr, Job>, graph: Graph, named: set<Addr>, gone: set<Addr>, f: Addr)
    requires EndsAt(Climb(graph, named, 8), gone) && graph.Keys <= jobs.Keys
    requires forall a :: a in graph ==> WalkedWhole(jobs[a], graph[a])
    ensures gone == AllFound(graph, named)
    ensures f in gone ==> (MayComeBack(jobs, named, f) <==>
      exists path :: Escapes(jobs, named, AllFound(graph, named), f, path))
    ensures AllHeld(jobs, named, gone) ==> NoneComesBack(jobs, named, gone)
    ensures OthersReturn(jobs, named, gone) ==> (NoneComesBack(jobs, named, gone) <==> AllHeld(jobs, named, gone))
  {
    RoundsBacked(graph, named, named, 8);
    forall a | a in gone && a !in named ensures a in jobs && NeverReturns(jobs[a]) {
      WholeNever(jobs[a], graph[a], gone);
    }
    HeldIff(jobs, named, gone);
    FoundAre(graph, named, gone);
    if f in gone {
      ComesBackIff(jobs, named, gone, f);
    }
  }

  lemma FoundAre(graph: Graph, named: set<Addr>, gone: set<Addr>)
    requires EndsAt(Climb(graph, named, 8), gone)
    ensures gone == AllFound(graph, named)
  {
    forall f: Addr ensures f in gone <==> f in AllFound(graph, named) {
      FoundIff(graph, named, f, 8);
    }
  }

  // ------------------------------------------------------------------ where the rule is wrong

  /** At 0 a test that skips a call to 100; at 2 a branch out to 200. */
  function TailJob(): (job: Job)
    ensures job.p.Valid()
  {
    Job(Program(map[0 := Insn(0, 1, CondBranch(2)), 1 := Insn(1, 1, Flow.Call(100)), 2 := Insn(2, 1, Flow.Branch(200))],
                {0, 1, 2}, map[]), 0, {100, 200}, {}, {})
  }

  /** At 0 a test that branches out to 200; at 1 a trap. */
  function TestedTailJob(): (job: Job)
    ensures job.p.Valid()
  {
    Job(Program(map[0 := Insn(0, 1, CondBranch(200)), 1 := Insn(1, 1, Flow.Trap)], {0, 1}, map[]), 0, {200}, {}, {})
  }

  lemma TailJobReaches(job: Job)
    requires job == TailJob()
    ensures job.NoOverlap() && Judged(job, {100}) && ComesBack(job, {100})
  {
    assert job.Step(0, 2) && job.Step(0, 1);
    EntryReachable(job);
    StepReachable(job, 0, 2);
    StepReachable(job, 0, 1);
    assert Ends(job, 2) && CallsHere(job, 1, 100) && Tails(job, 2, 200);
    TailJobApart(job);
    TailJobJudged(job);
  }

  lemma TailJobApart(job: Job)
    requires job == TailJob()
    ensures job.NoOverlap()
  {
    forall a, b | job.Decodable(a) && job.Decodable(b) && a < b ensures job.p.code[a].End() <= b {
    }
  }

  lemma TailJobJudged(job: Job)
    requires job == TailJob() && Ends(job, 2) && CallsHere(job, 1, 100)
    ensures Judged(job, {100})
  {
    forall x | Ends(job, x) ensures DeadWay(job, x, {100}) {
      assert job.Exits(job.p.code[0]) == [2, 1];
      assert x == 1 || x == 2;
    }
  }

  lemma TailJobLands(job: Job, a: Addr)
    requires job == TailJob() && job.Landing(a)
    ensures a in [0, 1, 2]
  {
    if a != 0 {
      var x :| job.Lands(x, a);
      assert x == 0;
    }
  }

  lemma TailJobAmple(job: Job, caps: Caps)
    requires job == TailJob() && caps.functionBlocks >= 3 && caps.functionInsns > 9
    ensures Ample(job, caps, [0, 1, 2], [0, 1, 2])
  {
    forall a | job.Landing(a) ensures a in [0, 1, 2] {
      TailJobLands(job, a);
    }
  }

  lemma TailJobDecodes(job: Job)
    requires job == TailJob()
    ensures AllDecode(job)
  {
    AllDecodeBy(job, {0, 1, 2});
  }

  lemma TestedTailJobReaches(job: Job)
    requires job == TestedTailJob()
    ensures job.NoOverlap() && Judged(job, {}) && ComesBack(job, {})
  {
    assert job.Step(0, 1);
    EntryReachable(job);
    StepReachable(job, 0, 1);
    assert Ends(job, 1) && Tails(job, 0, 200);
    forall x | Ends(job, x) ensures DeadWay(job, x, {}) {
      assert x == 0 || x == 1;
      assert job.Exits(job.p.code[0]) == [1];
    }
  }

  lemma TestedTailJobLands(job: Job, a: Addr)
    requires job == TestedTailJob() && job.Landing(a)
    ensures a in [0, 1]
  {
    if a != 0 {
      var x :| job.Lands(x, a);
      assert x == 0;
    }
  }

  lemma TestedTailJobAmple(job: Job, caps: Caps)
    requires job == TestedTailJob() && caps.functionBlocks >= 2 && caps.functionInsns > 4
    ensures Ample(job, caps, [0, 1], [0, 1])
  {
    forall a | job.Landing(a) ensures a in [0, 1] {
      TestedTailJobLands(job, a);
    }
  }

  lemma TestedTailJobDecodes(job: Job)
    requires job == TestedTailJob()
    ensures AllDecode(job)
  {
    AllDecodeBy(job, {0, 1});
  }

  lemma TailJobFinishes(w: Trip)
    requires Ran(w) && w.job == TailJob() && w.caps.functionBlocks >= 3 && w.caps.functionInsns > 9
    ensures Finished(w)
  {
    TailJobAmple(w.job, w.caps);
    TailJobDecodes(w.job);
    Finishes(w, [0, 1, 2], [0, 1, 2]);
  }

  lemma TestedTailJobFinishes(w: Trip)
    requires Ran(w) && w.job == TestedTailJob() && w.caps.functionBlocks >= 2 && w.caps.functionInsns > 4
    ensures Finished(w)
  {
    TestedTailJobAmple(w.job, w.caps);
    TestedTailJobDecodes(w.job);
    Finishes(w, [0, 1], [0, 1]);
  }

  /** One call to a function that never returns, on one way through, makes every
      branch out count as one: with room enough the walk completes, and the function
      is reported though its branch to 200 comes back. */
  lemma TailMisjudged(w: Trip)
    requires Ran(w) && w.job == TailJob() && w.caps.functionBlocks >= 3 && w.caps.functionInsns > 9
    ensures w.raw.halt == Complete && Stuck(w.raw, {100}) && ComesBack(w.job, {100})
  {
    TailJobReaches(w.job);
    TailJobFinishes(w);
    JudgedStuck(w, {100});
  }

  /** A conditional branch out is not looked at: with room enough the walk completes,
      and the function is reported for its trap though its branch to 200 comes back. */
  lemma TestedTailMisjudged(w: Trip)
    requires Ran(w) && w.job == TestedTailJob() && w.caps.functionBlocks >= 2 && w.caps.functionInsns > 4
    ensures w.raw.halt == Complete && Stuck(w.raw, {}) && ComesBack(w.job, {})
  {
    TestedTailJobReaches(w.job);
    TestedTailJobFinishes(w);
    JudgedStuck(w, {});
  }
}
