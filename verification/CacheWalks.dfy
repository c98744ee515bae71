/** Every graph a walk leaves survives the cache, however the walk stopped
    (crates/e5r-analysis/src/codec.rs, crates/e5r-analysis/src/cfg.rs). */
module CacheWalks {
  import opened Ordered
  import opened Image
  import opened Walk
  import opened Blocks
  import opened WalkTheorems
  import opened Tiling
  import opened Wire
  import opened Codec
  import opened CodecTheorems
  import opened CacheTheorems

  // ------------------------------------------------------------------ where runs leave to

  ghost predicate InEnds(ends: map<Addr, Ending>, blocks: seq<Block>) {
    forall b :: b in blocks ==> b.range.start in ends
  }

  /** Where the runs the blocks were cut from leave to, before any cutting. */
  ghost function LeftTo(ends: map<Addr, Ending>, blocks: seq<Block>): seq<Addr>
    requires InEnds(ends, blocks)
  {
    if blocks == [] then [] else
    LeftTo(ends, blocks[..|blocks| - 1]) + ends[blocks[|blocks| - 1].range.start].succs
  }

  lemma {:induction false} LeftToListed(ends: map<Addr, Ending>, blocks: seq<Block>, i: nat, t: Addr)
    requires InEnds(ends, blocks) && i < |blocks| && t in ends[blocks[i].range.start].succs
    ensures t in LeftTo(ends, blocks)
  {
    if i < |blocks| - 1 {
      LeftToListed(ends, blocks[..|blocks| - 1], i, t);
    }
  }

  /** How many targets were recovered for the branch a run ends at. */
  function Recovered(job: Job, body: seq<Insn>): nat {
    if body == [] then 0 else
    var last := body[|body| - 1];
    if last.flow.IndirectBranch? && last.addr in job.p.tables then |job.p.tables[last.addr]| else 0
  }

  ghost function RecoveredIn(job: Job, bodies: map<Addr, seq<Insn>>, blocks: seq<Block>): nat {
    if blocks == [] then 0 else
    var s := blocks[|blocks| - 1].range.start;
    RecoveredIn(job, bodies, blocks[..|blocks| - 1]) + if s in bodies then Recovered(job, bodies[s]) else 0
  }

  /** A run leaves to at most two places, or to those recovered for its branch. */
  lemma LeavesFew(job: Job, s: Addr, body: seq<Insn>, e: Ending, starts: set<Addr>, halt: Halt)
    requires RunOk(job, s, body, e, starts, halt) && Ascending(e.succs)
    ensures |e.succs| <= 2 || |e.succs| <= Recovered(job, body)
    ensures e.succs != [] ==> body != []
  {
    if Exited(job, s, body, e) {
      var exits := job.Exits(body[|body| - 1]);
      DistinctFits(e.succs, Elems(exits));
      ElemsFewer(exits);
    }
  }

  /** Cutting a run leaves its block at least one edge if the run had any. */
  lemma KeepsAnEdge(job: Job, ends: map<Addr, Ending>, s: Addr)
    requires job.p.Valid() && s in ends
    ensures ends[s].succs != [] ==> SplitBlock(job.p, ends, s).successors != []
  {
  }

  lemma BlockLeaves(job: Job, caps: Caps, raw: RawCfg, ends: map<Addr, Ending>, bodies: map<Addr, seq<Insn>>, i: nat)
    requires job.p.Valid() && Result(job, caps, raw, ends, bodies) && i < |raw.blocks|
    ensures raw.blocks[i].range.start in ends && raw.blocks[i].range.start in bodies
    ensures |ends[raw.blocks[i].range.start].succs| <=
      2 * |raw.blocks[i].successors| + Recovered(job, bodies[raw.blocks[i].range.start])
  {
    BlockOfRun(job, caps, raw, ends, bodies, i);
    var s := raw.blocks[i].range.start;
    LeavesFew(job, s, bodies[s], ends[s], ends.Keys, raw.halt);
    KeepsAnEdge(job, ends, s);
  }

  ghost predicate AllLeave(job: Job, ends: map<Addr, Ending>, bodies: map<Addr, seq<Insn>>, blocks: seq<Block>) {
    forall b :: b in blocks ==>
      (b.range.start in ends && b.range.start in bodies &&
       |ends[b.range.start].succs| <= 2 * |b.successors| + Recovered(job, bodies[b.range.start]))
  }

  lemma {:induction false} LeftToBounded(job: Job, ends: map<Addr, Ending>, bodies: map<Addr, seq<Insn>>, blocks: seq<Block>)
    requires AllLeave(job, ends, bodies, blocks)
    ensures |LeftTo(ends, blocks)| <= 2 * Edges(blocks) + RecoveredIn(job, bodies, blocks)
  {
    if blocks != [] {
      LeftToBounded(job, ends, bodies, blocks[..|blocks| - 1]);
    }
  }

  // ------------------------------------------------------------------ how many blocks that allows

  /** Every block but the entry's starts where some run with a block leaves to. */
  lemma StartIsLeftTo(job: Job, caps: Caps, raw: RawCfg, ends: map<Addr, Ending>, bodies: map<Addr, seq<Insn>>, x: Addr)
    requires job.p.Valid() && Result(job, caps, raw, ends, bodies) && Sourced(job, ends, ends.Keys)
    requires InEnds(ends, raw.blocks) && x in ends && x != job.entry
    ensures x in LeftTo(ends, raw.blocks)
  {
    var s :| SuccOf(ends, s, x);
    LeavesFew(job, s, bodies[s], ends[s], ends.Keys, raw.halt);
    var i := RunHasBlock(job, caps, raw, ends, bodies, s);
    LeftToListed(ends, raw.blocks, i, x);
  }

  lemma BlocksBounded(job: Job, caps: Caps, raw: RawCfg, ends: map<Addr, Ending>, bodies: map<Addr, seq<Insn>>)
    requires job.p.Valid() && Result(job, caps, raw, ends, bodies) && Sourced(job, ends, ends.Keys)
    ensures |raw.blocks| <= 2 * Edges(raw.blocks) + RecoveredIn(job, bodies, raw.blocks) + 1
  {
    forall b | b in raw.blocks
      ensures b.range.start in ends && b.range.start in bodies
      ensures |ends[b.range.start].succs| <= 2 * |b.successors| + Recovered(job, bodies[b.range.start])
    {
      var i :| 0 <= i < |raw.blocks| && raw.blocks[i] == b;
      BlockLeaves(job, caps, raw, ends, bodies, i);
    }
    LeftToBounded(job, ends, bodies, raw.blocks);
    StartsDistinct(job, caps, raw, ends, bodies);
    forall x | x in Starts(raw.blocks) ensures x == job.entry || x in LeftTo(ends, raw.blocks) {
      var i :| 0 <= i < |raw.blocks| && Starts(raw.blocks)[i] == x;
      assert raw.blocks[i] in raw.blocks;
      if x != job.entry {
        StartIsLeftTo(job, caps, raw, ends, bodies, x);
      }
    }
    EdgesCount(Starts(raw.blocks), LeftTo(ends, raw.blocks), job.entry);
  }

  // ------------------------------------------------------------------ what the cache asks

  function Targets(t: JumpTable): nat {
    |t.targets|
  }

  lemma {:induction false} TablesHold(tables: seq<JumpTable>)
    ensures SumBy(TableSize, tables) >= 8 * SumBy(Targets, tables)
  {
    if tables != [] {
      TablesHold(tables[..|tables| - 1]);
    }
  }

  /** The block count of any walked graph that lists its recovered tables holds:
      the walk may have been cut short, and its instructions may overlap. */
  lemma WalkAccepted(l: Listing, k: nat, job: Job, caps: Caps, raw: RawCfg, ends: map<Addr, Ending>, bodies: map<Addr, seq<Insn>>)
    requires job.p.Valid() && Result(job, caps, raw, ends, bodies) && Sourced(job, ends, ends.Keys)
    requires k < |l.functions| && l.functions[k].cfg.blocks == raw.blocks
    requires RecoveredIn(job, bodies, raw.blocks) <= SumBy(Targets, l.functions[k].cfg.tables)
    ensures CountHolds(l, k)
  {
    BlocksBounded(job, caps, raw, ends, bodies);
    TablesHold(l.functions[k].cfg.tables);
  }

  /** A function's graph is what a walk left, with the tables it recovered. */
  ghost predicate FromWalk(w: Trip, f: Plain) {
    match w
    case Trip(job, caps, raw, ends, bodies) =>
      (job.p.Valid() && Result(job, caps, raw, ends, bodies) && Sourced(job, ends, ends.Keys) &&
       f.cfg.blocks == raw.blocks && RecoveredIn(job, bodies, raw.blocks) <= SumBy(Targets, f.cfg.tables))
  }

  /** An analysis whose functions were all walked comes back whole. */
  lemma WalkedComesBack(l: Listing, trips: seq<Trip>)
    requires FitsListing(l) && |trips| == |l.functions|
    requires forall k :: 0 <= k < |trips| ==> FromWalk(trips[k], l.functions[k])
    ensures ReadListing(ListingBytes(l)) == Some(CachedListing(l))
  {
    forall k: nat | k < |l.functions| ensures CountHolds(l, k) {
      var w := trips[k];
      assert FromWalk(w, l.functions[k]);
      WalkAccepted(l, k, w.job, w.caps, w.raw, w.ends, w.bodies);
    }
    ListingReads(l);
  }

  /** So no walk gives five lone blocks that lead nowhere. */
  lemma NoWalkOfLeaves(job: Job, caps: Caps, raw: RawCfg, ends: map<Addr, Ending>, bodies: map<Addr, seq<Insn>>)
    requires job.p.Valid() && Result(job, caps, raw, ends, bodies) && Sourced(job, ends, ends.Keys)
    requires RecoveredIn(job, bodies, raw.blocks) == 0 && Edges(raw.blocks) == 0
    ensures |raw.blocks| <= 1
  {
    BlocksBounded(job, caps, raw, ends, bodies);
  }
}
