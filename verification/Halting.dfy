/** When a walk completes, and why it stops when it does not
    (crates/e5r-analysis/src/cfg.rs). */
module Halting {
  import opened Ordered
  import opened Image
  import opened Walk
  import opened Blocks
  import opened WalkTheorems
  import opened Tiling

  /** Some run of the walk left this. */
  ghost predicate Ran(w: Trip) {
    match w
    case Trip(job, caps, raw, ends, bodies) =>
      (job.p.Valid() && Result(job, caps, raw, ends, bodies) && Traces(job, caps, ends, bodies, raw.halt))
  }

  lemma RanFinished(w: Trip)
    requires Ran(w) && w.raw.halt == Complete
    ensures Finished(w)
  {
  }

  /** What decoding from one start gave. */
  ghost predicate RunAt(w: Trip, s: Addr) {
    match w
    case Trip(job, _, raw, ends, bodies) =>
      s in ends && s in bodies && RunOk(job, s, bodies[s], ends[s], ends.Keys, raw.halt)
  }

  /** Every start is a place a block may start, and has its run. */
  ghost predicate AllRuns(w: Trip) {
    w.bodies.Keys == w.ends.Keys && forall s :: s in w.ends ==> RunAt(w, s) && w.job.Landing(s)
  }

  /** Why it stopped. */
  ghost predicate Ceased(w: Trip) {
    match w
    case Trip(job, caps, raw, ends, bodies) => Halted(job, caps, ends, bodies, raw.halt)
  }

  lemma RanRuns(w: Trip)
    requires Ran(w)
    ensures AllRuns(w) && Ceased(w) && w.job.p.Valid()
  {
  }

  ghost predicate AllDecode(job: Job) {
    forall a :: job.Reachable(a) ==> job.Decodable(a)
  }

  /** A set of decodable addresses that holds the entry and is closed under flow
      steps holds everything reachable. */
  lemma AllDecodeBy(job: Job, within: set<Addr>)
    requires job.entry in within && forall a :: a in within ==> job.Decodable(a)
    requires forall a, b :: a in within && job.Step(a, b) ==> b in within
    ensures AllDecode(job) && forall a :: job.Reachable(a) ==> a in within
  {
    var all := iset a | a in within;
    forall a | job.Reachable(a) ensures a in within {
      var path :| job.IsPath(path) && path[|path| - 1] == a;
      ClosedHolds(job, all, path);
    }
  }

  // ------------------------------------------------------------------ why a walk stops

  /** Where a run was cut off, control can get. */
  lemma CutOffReachable(w: Trip, s: Addr)
    requires w.job.p.Valid() && AllRuns(w) && CutOffAt(w.job, w.ends, w.bodies, s)
    ensures w.job.Reachable(w.ends[s].end)
  {
    var job, body := w.job, w.bodies[s];
    assert RunAt(w, s);
    if body != [] {
      var last := body[|body| - 1];
      RunReachable(job, s, body, |body| - 1);
      assert job.Step(last.addr, w.ends[s].end);
      StepReachable(job, last.addr, w.ends[s].end);
    }
  }

  lemma CutOffUndecoded(w: Trip) returns (s: Addr)
    requires Ceased(w) && w.raw.halt == Undecodable
    ensures CutOffAt(w.job, w.ends, w.bodies, s) && !w.job.Decodable(w.ends[s].end)
  {
    s :| CutOffAt(w.job, w.ends, w.bodies, s) && !w.job.Decodable(w.ends[s].end);
  }

  /** A walk that met what does not decode met it where control can get. */
  lemma UndecodableReached(w: Trip)
    requires Ran(w) && w.raw.halt == Undecodable
    ensures !AllDecode(w.job)
  {
    RanRuns(w);
    var s := CutOffUndecoded(w);
    CutOffReachable(w, s);
  }

  lemma CompleteDecodes(w: Trip)
    requires Finished(w)
    ensures AllDecode(w.job)
  {
    forall a | w.job.Reachable(a) ensures w.job.Decodable(a) {
      CompleteDecodesReachable(w.job, w.ends, w.bodies, a);
    }
  }

  /** Below both caps a walk is complete if and only if everything control can get
      to decodes. */
  lemma CompleteIff(w: Trip)
    requires Ran(w) && |w.ends| < w.caps.functionBlocks && Spent(w.bodies) < w.caps.functionInsns
    ensures w.raw.halt == Complete <==> AllDecode(w.job)
  {
    if w.raw.halt == Complete {
      CompleteDecodes(w);
    } else if w.raw.halt == Undecodable {
      UndecodableReached(w);
    }
  }

  // ------------------------------------------------------------------ caps that are enough

  /** A run decodes no address twice. */
  lemma RunFits(job: Job, s: Addr, body: seq<Insn>, code: seq<Addr>)
    requires job.p.Valid() && Chain(job, s, body) && forall a :: a in job.p.code ==> a in code
    ensures |body| <= |code|
  {
    RunAscends(job, s, body);
    var at := seq(|body|, i requires 0 <= i < |body| => body[i].addr);
    forall i, j | 0 <= i < j < |at| ensures at[i] != at[j] {
      assert body[i].End() <= body[j].addr;
    }
    DistinctFits(at, Elems(code));
    ElemsFewer(code);
  }

  lemma OnceMore(k: int, n: nat)
    ensures k * n + n == (k + 1) * n
  {
  }

  lemma {:induction false} SpentFits(bodies: map<Addr, seq<Insn>>, n: nat)
    requires forall s :: s in bodies ==> |bodies[s]| <= n
    ensures Spent(bodies) <= |bodies| * n
    decreases |bodies|
  {
    if bodies.Keys != {} {
      var s := Min(bodies.Keys);
      SpentFits(bodies - {s}, n);
      assert |bodies - {s}| == |bodies| - 1;
      OnceMore(|bodies| - 1, n);
    } else {
      assert |bodies| == 0;
    }
  }

  /** Room for a block at every place one may start, and for decoding the image
      once from each. */
  ghost predicate Ample(job: Job, caps: Caps, starts: seq<Addr>, code: seq<Addr>) {
    (forall s :: job.Landing(s) ==> s in starts) && (forall a :: a in job.p.code ==> a in code) &&
    |starts| <= caps.functionBlocks && |starts| * |code| < caps.functionInsns
  }

  lemma AmpleSpends(w: Trip, starts: seq<Addr>, code: seq<Addr>)
    requires w.job.p.Valid() && AllRuns(w) && Ample(w.job, w.caps, starts, code)
    ensures w.ends.Keys <= Elems(starts) && Spent(w.bodies) < w.caps.functionInsns
  {
    forall s | s in w.bodies ensures |w.bodies[s]| <= |code| {
      assert RunAt(w, s);
      RunFits(w.job, s, w.bodies[s], code);
    }
    SpentFits(w.bodies, |code|);
    FewerKeys(w.bodies, starts);
    Times(|w.bodies|, |starts|, |code|);
  }

  lemma FewerKeys(bodies: map<Addr, seq<Insn>>, starts: seq<Addr>)
    requires bodies.Keys <= Elems(starts)
    ensures |bodies| <= |starts|
  {
    ElemsFewer(starts);
    assert Elems(starts) == bodies.Keys + (Elems(starts) - bodies.Keys);
    assert |bodies.Keys| == |bodies|;
  }

  lemma Times(a: nat, b: nat, n: nat)
    requires a <= b
    ensures a * n <= b * n
  {
  }

  /** With ample caps a walk reaches neither, so it is complete if and only if
      everything control can get to decodes. */
  lemma AmpleCompletesIff(w: Trip, starts: seq<Addr>, code: seq<Addr>)
    requires Ran(w) && Ample(w.job, w.caps, starts, code)
    ensures w.raw.halt == Complete <==> AllDecode(w.job)
  {
    RanRuns(w);
    NeitherCap(w, starts, code);
    if w.raw.halt == Complete {
      CompleteDecodes(w);
    } else {
      UndecodableReached(w);
    }
  }

  lemma NeitherCap(w: Trip, starts: seq<Addr>, code: seq<Addr>)
    requires w.job.p.Valid() && AllRuns(w) && Ceased(w) && Ample(w.job, w.caps, starts, code)
    ensures w.raw.halt == Complete || w.raw.halt == Undecodable
  {
    AmpleSpends(w, starts, code);
    if w.raw.halt == BlockCap {
      var t: Addr :| w.job.Landing(t) && t !in w.ends;
      FewerBlocks(w.ends, starts, t);
    }
  }

  lemma FewerBlocks(ends: map<Addr, Ending>, starts: seq<Addr>, t: Addr)
    requires ends.Keys <= Elems(starts) && t in starts && t !in ends
    ensures |ends| < |starts|
  {
    ElemsFewer(starts);
    assert Elems(starts) == ends.Keys + (Elems(starts) - ends.Keys);
    assert t in Elems(starts) - ends.Keys;
    assert |ends.Keys| == |ends|;
  }

  lemma Finishes(w: Trip, starts: seq<Addr>, code: seq<Addr>)
    requires Ran(w) && Ample(w.job, w.caps, starts, code) && AllDecode(w.job)
    ensures Finished(w)
  {
    AmpleCompletesIff(w, starts, code);
  }
}
