/** Walking a function again, and images whose walks lose instructions
    (crates/e5r-analysis/src/cfg.rs, crates/e5r-analysis/src/program.rs). */
module Rewalk {
  import opened Ordered
  import opened Image
  import opened Walk
  import opened Blocks
  import opened WalkTheorems
  import opened Tiling
  import opened Halting

  /** The last place a block may start at or below an address leads to it. */
  ghost predicate LedTo(job: Job, a: Addr)
    requires job.p.Valid()
  {
    exists s :: Nearest(job, s, a) && Line(job, s, a)
  }

  /** Of two complete walks the second gains an instruction if and only if the last
      place a block may start before it leads to it in the second and not in the
      first. */
  lemma GainedIff(w: Trip, again: Trip, a: Addr)
    requires Finished(w) && Finished(again)
    ensures Tiles(again.job.p, again.raw.blocks, a) && !Tiles(w.job.p, w.raw.blocks, a) <==>
      LedTo(again.job, a) && !LedTo(w.job, a)
  {
    TiledIff(w, a);
    TiledIff(again, a);
  }

  /** A second walk of the same image under no smaller a no-return set, giving up no
      stop but where nothing decodes. It may know other data. */
  ghost predicate Tightens(less: Job, more: Job) {
    more.p == less.p && more.entry == less.entry && less.noreturn <= more.noreturn &&
    (forall x :: x in less.stopAt && x !in more.stopAt ==> x !in less.p.code)
  }

  lemma TightStep(less: Job, more: Job, a: Addr, b: Addr)
    requires Tightens(less, more) && more.Step(a, b) && more.Decodable(b) && less.Decodable(a)
    ensures less.Step(a, b)
  {
  }

  /** Every instruction the second walk can reach, the first could, when everything
      the first could reach decodes. */
  lemma {:induction false} TightReach(less: Job, more: Job, path: seq<Addr>)
    requires Tightens(less, more) && more.IsPath(path) && more.Decodable(path[|path| - 1]) && AllDecode(less)
    ensures less.Reachable(path[|path| - 1])
    decreases |path|
  {
    if |path| == 1 {
      EntryReachable(less);
    } else {
      var before, last := path[..|path| - 1], path[|path| - 1];
      var a := before[|before| - 1];
      assert more.Step(a, last);
      assert forall k :: 0 <= k < |before| - 1 ==> more.Step(path[k], path[k + 1]);
      TightReach(less, more, before);
      TightStep(less, more, a, last);
      StepReachable(less, a, last);
    }
  }

  /** When the first walk was complete and nothing it reached was torn, a tighter
      second walk adds no instruction, however it stops. */
  lemma RewalkOnlyShortens(w: Trip, again: Trip, a: Addr)
    requires Finished(w) && Untorn(w.job) && Ran(again) && Tightens(w.job, again.job)
    requires Tiles(again.job.p, again.raw.blocks, a)
    ensures Tiles(w.job.p, w.raw.blocks, a)
  {
    CompleteDecodes(w);
    TilesOnlyReachable(again.job, again.caps, again.raw, again.ends, again.bodies, a);
    var path :| again.job.IsPath(path) && path[|path| - 1] == a;
    TightReach(w.job, again.job, path);
    AllTiledIff(w);
  }

  // ------------------------------------------------------------------ overlapping instructions

  /** A five-instruction image in which the branch at 4 goes back into the
      middle of the instruction at 1. */
  function OverlapJob(): (job: Job)
    ensures job.p.Valid()
  {
    var code := map[
      0 := Insn(0, 1, Flow.Next), 1 := Insn(1, 3, Flow.Next), 2 := Insn(2, 1, Flow.Return),
      4 := Insn(4, 1, Flow.CondBranch(2)), 5 := Insn(5, 1, Flow.Return)];
    Job(Program(code, {0, 1, 2, 3, 4, 5}, map[]), 0, {}, {}, {})
  }

  lemma OverlapReaches(job: Job)
    requires job == OverlapJob()
    ensures job.Reachable(4) && !job.NoOverlap() && job.Landing(2)
  {
    EntryReachable(job);
    StepReachable(job, 0, 1);
    StepReachable(job, 1, 4);
    assert job.Exits(job.p.code[4])[0] == 2;
    StepReachable(job, 4, 2);
    assert job.Lands(4, 2);
    assert job.p.code[1].End() > 2;
  }

  lemma OverlapLandings(job: Job)
    requires job == OverlapJob()
    ensures forall s :: job.Landing(s) ==> s in [0, 2, 5]
  {
    forall s | job.Landing(s) ensures s in [0, 2, 5] {
      if s != 0 {
        var x :| job.Lands(x, s);
        assert x == 4;
      }
    }
  }

  lemma OverlapDecodes(job: Job)
    requires job == OverlapJob()
    ensures AllDecode(job)
  {
    AllDecodeBy(job, {0, 1, 2, 4, 5});
  }

  /** An instruction is lost when the last place a block may start before it ends
      there. */
  lemma Torn(job: Job, s: Addr, a: Addr)
    requires job.p.Valid() && Nearest(job, s, a) && s < a && s in job.p.code && !job.Falls(job.p.code[s])
    ensures !LedTo(job, a)
  {
    forall t | Nearest(job, t, a) ensures t == s {
    }
  }

  lemma OverlapTorn(job: Job)
    requires job == OverlapJob()
    ensures !LedTo(job, 4)
  {
    OverlapNearest(job);
    Torn(job, 2, 4);
  }

  lemma OverlapNearest(job: Job)
    requires job == OverlapJob()
    ensures Nearest(job, 2, 4)
  {
    OverlapReaches(job);
    OverlapLandings(job);
    assert forall c: Addr :: job.Landing(c) ==> c == 0 || c == 2 || c == 5;
  }

  lemma OverlapAmple(job: Job, caps: Caps)
    requires job == OverlapJob() && caps.functionBlocks >= 3 && caps.functionInsns > 15
    ensures Ample(job, caps, [0, 2, 5], [0, 1, 2, 4, 5])
  {
    OverlapLandings(job);
  }

  /** Without the no-overlap condition the tiling law fails: with room enough the
      walk completes, and splitting at 2 drops the reachable instruction at 4. */
  lemma OverlapLosesInstruction(w: Trip)
    requires Ran(w) && w.job == OverlapJob() && w.caps.functionBlocks >= 3 && w.caps.functionInsns > 15
    ensures w.raw.halt == Complete && w.job.Reachable(4) && !w.job.NoOverlap()
    ensures !Tiles(w.job.p, w.raw.blocks, 4)
  {
    OverlapReaches(w.job);
    OverlapDecodes(w.job);
    OverlapAmple(w.job, w.caps);
    Finishes(w, [0, 2, 5], [0, 1, 2, 4, 5]);
    OverlapTorn(w.job);
    TiledIff(w, 4);
  }

  // ------------------------------------------------------------------ gained by a second walk

  /** At 0 a test for 10; from 1 a three-byte step to a return at 4; from 10 a call to
      100 and a branch to 2, in the middle of that step. */
  function TornProgram(): (p: Program)
    ensures p.Valid()
  {
    Program(map[0 := Insn(0, 1, CondBranch(10)), 1 := Insn(1, 3, Flow.Next), 2 := Insn(2, 1, Flow.Return),
                4 := Insn(4, 1, Flow.Return), 10 := Insn(10, 1, Call(100)), 11 := Insn(11, 1, Flow.Branch(2))],
            {0, 1, 2, 4, 10, 11}, map[])
  }

  function TornFirst(): (job: Job)
    ensures job.p.Valid()
  {
    Job(TornProgram(), 0, {0}, {}, {})
  }

  function TornAgain(): (job: Job)
    ensures job.p.Valid()
  {
    Job(TornProgram(), 0, {0}, {100}, {})
  }

  lemma FirstReaches(job: Job)
    requires job == TornFirst()
    ensures job.Landing(2)
  {
    EntryReachable(job);
    assert job.Exits(job.p.code[0]) == [10, 1];
    StepReachable(job, 0, 10);
    StepReachable(job, 10, 11);
    assert job.Exits(job.p.code[11]) == [2];
    StepReachable(job, 11, 2);
    assert job.Lands(11, 2);
  }

  lemma FirstLandings(job: Job)
    requires job == TornFirst()
    ensures forall s :: job.Landing(s) ==> s in [0, 1, 2, 10]
  {
    forall s | job.Landing(s) ensures s in [0, 1, 2, 10] {
      if s != 0 {
        var x :| job.Lands(x, s);
        assert x == 0 || x == 11;
      }
    }
  }

  lemma FirstTorn(job: Job, caps: Caps)
    requires job == TornFirst() && caps.functionBlocks >= 4 && caps.functionInsns > 24
    ensures Ample(job, caps, [0, 1, 2, 10], [0, 1, 2, 4, 10, 11]) && !LedTo(job, 4)
  {
    FirstReaches(job);
    FirstLandings(job);
    Torn(job, 2, 4);
  }

  lemma FirstDecodes(job: Job)
    requires job == TornFirst()
    ensures AllDecode(job)
  {
    AllDecodeBy(job, {0, 1, 2, 4, 10, 11});
  }

  lemma AgainReaches(job: Job)
    requires job == TornAgain()
    ensures job.Landing(1)
  {
    EntryReachable(job);
    assert job.Exits(job.p.code[0]) == [10, 1];
    StepReachable(job, 0, 1);
    assert job.Lands(0, 1);
  }

  lemma AgainDecodes(job: Job)
    requires job == TornAgain()
    ensures AllDecode(job) && forall a :: job.Reachable(a) ==> a in {0, 1, 4, 10}
  {
    AllDecodeBy(job, {0, 1, 4, 10});
  }

  lemma AgainLandings(job: Job)
    requires job == TornAgain()
    ensures forall s :: job.Landing(s) ==> s in [0, 1, 10]
  {
    AgainDecodes(job);
    forall s | job.Landing(s) ensures s in [0, 1, 10] {
      if s != 0 {
        var x :| job.Lands(x, s);
        assert x == 0;
      }
    }
  }

  lemma AgainAmple(job: Job, caps: Caps)
    requires job == TornAgain() && caps.functionBlocks >= 4 && caps.functionInsns > 24
    ensures Ample(job, caps, [0, 1, 10], [0, 1, 2, 4, 10, 11])
  {
    AgainLandings(job);
  }

  lemma AgainLed(job: Job)
    requires job == TornAgain()
    ensures LedTo(job, 4)
  {
    AgainReaches(job);
    AgainLandings(job);
    assert Line(job, 4, 4);
    assert Nearest(job, 1, 4) && Line(job, 1, 4);
  }

  /** Two complete walks of one image, the second only under a larger no-return set:
      it gains the instruction at 4, which the first tore off at 2. */
  lemma TornMayGrow(w: Trip, again: Trip)
    requires Ran(w) && w.job == TornFirst() && Ran(again) && again.job == TornAgain() && again.caps == w.caps
    requires w.caps.functionBlocks >= 4 && w.caps.functionInsns > 24
    ensures w.raw.halt == Complete && again.raw.halt == Complete && Tightens(w.job, again.job)
    ensures !Tiles(w.job.p, w.raw.blocks, 4) && Tiles(again.job.p, again.raw.blocks, 4)
  {
    FirstTorn(w.job, w.caps);
    FirstDecodes(w.job);
    AgainLed(again.job);
    AgainAmple(again.job, again.caps);
    AgainDecodes(again.job);
    Finishes(w, [0, 1, 2, 10], [0, 1, 2, 4, 10, 11]);
    Finishes(again, [0, 1, 10], [0, 1, 2, 4, 10, 11]);
    GainedIff(w, again, 4);
  }
}
