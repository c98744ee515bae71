/** Which instructions a finished walk's blocks hold, said of the image alone
    (crates/e5r-analysis/src/cfg.rs). */
module Tiling {
  import opened Ordered
  import opened Image
  import opened Walk
  import opened Blocks
  import opened WalkTheorems

  /** A walk and what it left. */
  datatype Trip = Trip(job: Job, caps: Caps, raw: RawCfg, ends: map<Addr, Ending>, bodies: map<Addr, seq<Insn>>)

  /** A walk that stopped because nothing was left to walk. */
  ghost predicate Finished(w: Trip) {
    match w
    case Trip(job, caps, raw, ends, bodies) =>
      (job.p.Valid() && Result(job, caps, raw, ends, bodies) && raw.halt == Complete)
  }

  /** The starts of a finished walk are the entry and the executable addresses
      some reachable instruction that does not fall through goes to. */
  lemma StartsAreLandings(w: Trip, a: Addr)
    requires Finished(w)
    ensures a in w.ends <==> w.job.Landing(a)
  {
    if w.job.Landing(a) && a != w.job.entry {
      var x :| w.job.Lands(x, a);
      LandedIsStart(w.job, w.ends, w.bodies, x, a);
    }
  }

  lemma LandedIsStart(job: Job, ends: map<Addr, Ending>, bodies: map<Addr, seq<Insn>>, x: Addr, a: Addr)
    requires job.p.Valid() && CompleteRuns(job, ends, bodies) && job.Lands(x, a) && a in job.p.exec
    ensures a in ends
  {
    CompleteDecodesReachable(job, ends, bodies, x);
    var s :| InRun(bodies, s, x);
    var k :| 0 <= k < |bodies[s]| && bodies[s][k].addr == x;
    StartDecodes(job, ends, bodies, s);
    ExitTargets(job, s, bodies[s], ends[s], ends.Keys, k, a);
  }

  /** The last place a block may start at or below an address. */
  ghost predicate Nearest(job: Job, s: Addr, a: Addr) {
    job.Landing(s) && s <= a && forall c: Addr :: job.Landing(c) ==> !(s < c <= a)
  }

  lemma {:induction false} NearestExists(job: Job, s: Addr, a: Addr)
    requires job.Landing(s) && s <= a
    ensures exists c :: Nearest(job, c, a)
    decreases a - s
  {
    if c: Addr :| job.Landing(c) && s < c <= a {
      NearestExists(job, c, a);
    } else {
      assert Nearest(job, s, a);
    }
  }

  /** An instruction is in a block exactly when the last place a block may start
      at or below it leads to it by falling through. */
  lemma TiledIff(w: Trip, a: Addr)
    requires Finished(w)
    ensures Tiles(w.job.p, w.raw.blocks, a) <==> exists s :: Nearest(w.job, s, a) && Line(w.job, s, a)
  {
    TilesExactly(w.job, w.caps, w.raw, w.ends, w.bodies, a);
    if s :| Kept(w.ends, w.bodies, s, a) {
      KeptIsNearest(w, s, a);
    }
    if s :| Nearest(w.job, s, a) && Line(w.job, s, a) {
      NearestIsKept(w, s, a);
    }
  }

  /** The starts recorded are the landings. */
  ghost predicate Recorded(job: Job, ends: map<Addr, Ending>) {
    forall c: Addr :: c in ends <==> job.Landing(c)
  }

  lemma AllRecorded(w: Trip)
    requires Finished(w)
    ensures Recorded(w.job, w.ends)
  {
    forall c: Addr ensures c in w.ends <==> w.job.Landing(c) {
      StartsAreLandings(w, c);
    }
  }

  lemma NearestIff(job: Job, ends: map<Addr, Ending>, s: Addr, a: Addr)
    requires Recorded(job, ends)
    ensures Nearest(job, s, a) <==> s in ends && s <= a && forall c :: c in ends ==> !(s < c <= a)
  {
  }

  lemma KeptIsNearest(w: Trip, s: Addr, a: Addr)
    requires Finished(w) && Kept(w.ends, w.bodies, s, a)
    ensures Nearest(w.job, s, a) && Line(w.job, s, a)
  {
    RunLeads(w.job, w.ends, w.bodies, s, a);
    AllRecorded(w);
    NearestIff(w.job, w.ends, s, a);
  }

  lemma RunLeads(job: Job, ends: map<Addr, Ending>, bodies: map<Addr, seq<Insn>>, s: Addr, a: Addr)
    requires job.p.Valid() && CompleteRuns(job, ends, bodies) && InRun(bodies, s, a)
    ensures s in ends && s <= a && Line(job, s, a)
  {
    var k :| 0 <= k < |bodies[s]| && bodies[s][k].addr == a;
    StartDecodes(job, ends, bodies, s);
    RunAscends(job, s, bodies[s]);
    LineAlong(job, s, bodies[s], 0, k);
  }

  lemma NearestIsKept(w: Trip, s: Addr, a: Addr)
    requires Finished(w) && Nearest(w.job, s, a) && Line(w.job, s, a)
    ensures Kept(w.ends, w.bodies, s, a)
  {
    AllRecorded(w);
    NearestIff(w.job, w.ends, s, a);
    LeadsInRun(w.job, w.ends, w.bodies, s, a);
  }

  lemma LeadsInRun(job: Job, ends: map<Addr, Ending>, bodies: map<Addr, seq<Insn>>, s: Addr, a: Addr)
    requires job.p.Valid() && CompleteRuns(job, ends, bodies) && s in ends && Line(job, s, a)
    requires forall c :: c in ends ==> !(s < c <= a)
    ensures InRun(bodies, s, a)
  {
    StartDecodes(job, ends, bodies, s);
    LineStays(job, s, bodies[s], 0, a);
  }

  /** Every reachable instruction is led to, by falling through, by the last
      place a block may start at or below it. */
  ghost predicate Untorn(job: Job)
    requires job.p.Valid()
  {
    forall s, a :: Nearest(job, s, a) && job.Reachable(a) ==> Line(job, s, a)
  }

  /** Blocks hold every reachable instruction exactly when no place a block may
      start tears a straight line apart. */
  lemma AllTiledIff(w: Trip)
    requires Finished(w)
    ensures (forall a :: w.job.Reachable(a) ==> Tiles(w.job.p, w.raw.blocks, a)) <==> Untorn(w.job)
  {
    if Untorn(w.job) {
      forall a | w.job.Reachable(a) ensures Tiles(w.job.p, w.raw.blocks, a) {
        SomeNearest(w, a);
        TiledIff(w, a);
      }
    }
    if forall a :: w.job.Reachable(a) ==> Tiles(w.job.p, w.raw.blocks, a) {
      forall s, a | Nearest(w.job, s, a) && w.job.Reachable(a) ensures Line(w.job, s, a) {
        TiledIff(w, a);
        var t :| Nearest(w.job, t, a) && Line(w.job, t, a);
        assert s == t;
      }
    }
  }

  lemma SomeNearest(w: Trip, a: Addr)
    requires Finished(w) && w.job.Reachable(a)
    ensures exists s :: Nearest(w.job, s, a)
  {
    CompleteDecodesReachable(w.job, w.ends, w.bodies, a);
    var s :| InRun(w.bodies, s, a);
    RunLeads(w.job, w.ends, w.bodies, s, a);
    StartsAreLandings(w, s);
    NearestExists(w.job, s, a);
  }

  /** Where no two reachable instructions overlap, nothing is torn. */
  lemma NoOverlapUntorn(w: Trip)
    requires Finished(w) && w.job.NoOverlap()
    ensures Untorn(w.job)
  {
    CompleteTilesReachable(w.job, w.caps, w.raw, w.ends, w.bodies);
    AllTiledIff(w);
  }
}
