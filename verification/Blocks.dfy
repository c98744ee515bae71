/** Splitting walked runs into basic blocks, and reading them back out
    (crates/e5r-analysis/src/cfg.rs). */
module Blocks {
  import opened Ordered
  import opened Image
  import opened Walk

  // ------------------------------------------------------------ streaming

  /** The instructions decoded from `at` until `end` is reached or passed. */
  function Stream(p: Program, at: Addr, end: Addr): seq<Insn>
    requires p.Valid()
    decreases end - at
  {
    if at < end && at in p.code then [p.code[at]] + Stream(p, p.code[at].End(), end) else []
  }

  method CountInsns(p: Program, start: Addr, end: Addr) returns (n: nat)
    requires p.Valid()
    ensures n == |Stream(p, start, end)|
  {
    var at := start;
    n := 0;
    while at < end && at in p.code
      invariant n + |Stream(p, at, end)| == |Stream(p, start, end)|
      decreases end - at
    {
      at := p.code[at].End();
      n := n + 1;
    }
  }

  /** From any point of a run, decoding up to `end` gives back exactly the
      instructions of the run that start below `end`. */
  lemma {:induction false} StreamOfRun(job: Job, start: Addr, body: seq<Insn>, i: nat, end: Addr) returns (k: nat)
    requires job.p.Valid() && Chain(job, start, body) && i <= |body|
    requires end <= EndOf(start, body)
    ensures i <= k <= |body|
    ensures Stream(job.p, if i < |body| then body[i].addr else EndOf(start, body), end) == body[i..k]
    ensures forall j :: i <= j < |body| ==> (body[j].addr < end <==> j < k)
    decreases |body| - i
  {
    if i == |body| || end <= body[i].addr {
      k := i;
      if i < |body| {
        RunAscends(job, start, body);
      }
    } else {
      k := StreamOfRun(job, start, body, i + 1, end);
      assert i + 1 < |body| ==> body[i + 1].addr == body[i].End();
      assert body[i..k] == [body[i]] + body[i + 1..k];
    }
  }

  /** Addresses go up along a run. */
  lemma RunAscends(job: Job, start: Addr, body: seq<Insn>)
    requires job.p.Valid() && Chain(job, start, body)
    ensures forall i, j :: 0 <= i < j < |body| ==> body[i].End() <= body[j].addr
    ensures forall i :: 0 <= i < |body| ==> start <= body[i].addr < body[i].End() <= EndOf(start, body)
  {
    if |body| > 0 {
      var less := body[..|body| - 1];
      assert Chain(job, start, less);
      RunAscends(job, start, less);
      forall i, j | 0 <= i < j < |body| ensures body[i].End() <= body[j].addr {
        assert i < |less| && body[i] == less[i];
        if j < |less| {
          assert body[j] == less[j];
        } else {
          assert body[j].addr == body[j - 1].End() == EndOf(start, less);
        }
      }
      forall i | 0 <= i < |body| ensures start <= body[i].addr < body[i].End() <= EndOf(start, body) {
        if i < |less| {
          assert body[i] == less[i];
        }
      }
    }
  }

  // ------------------------------------------------------------ splitting

  /** Where a later start falls inside a run, if one does. */
  function Cut(ends: map<Addr, Ending>, s: Addr): Option<Addr>
    requires s in ends
  {
    if ends[s].end > s then FirstBetween(ends.Keys, s, ends[s].end) else None
  }

  function SplitBlock(p: Program, ends: map<Addr, Ending>, s: Addr): Block
    requires p.Valid() && s in ends
  {
    var e := ends[s];
    match Cut(ends, s)
    case Some(c) => Block(Range(s, c), [c], |Stream(p, s, c)|, false, Terminator.Flow)
    case None => Block(Range(s, e.end), e.succs, e.count, e.unresolved, e.term)
  }

  /** The blocks of a walk: one per non-empty run, in address order. */
  ghost predicate BlocksOf(p: Program, ends: map<Addr, Ending>, blocks: seq<Block>)
    requires p.Valid()
  {
    (forall i :: 0 <= i < |blocks| ==>
      var s := blocks[i].range.start;
      s in ends && s < ends[s].end && blocks[i] == SplitBlock(p, ends, s)) &&
    (forall i, j :: 0 <= i < j < |blocks| ==> blocks[i].range.start < blocks[j].range.start) &&
    (forall s :: s in ends && s < ends[s].end ==> exists i :: 0 <= i < |blocks| && blocks[i].range.start == s)
  }

  /** The blocks of the starts listed, in that order. */
  ghost function BlocksFrom(p: Program, ends: map<Addr, Ending>, order: seq<Addr>): seq<Block>
    requires p.Valid() && forall s :: s in order ==> s in ends
  {
    if order == [] then [] else
    var s := order[|order| - 1];
    BlocksFrom(p, ends, order[..|order| - 1]) + if s < ends[s].end then [SplitBlock(p, ends, s)] else []
  }

  lemma BlocksFromStep(p: Program, ends: map<Addr, Ending>, order: seq<Addr>, k: nat)
    requires p.Valid() && k < |order| && forall s :: s in order ==> s in ends
    ensures BlocksFrom(p, ends, order[..k + 1]) ==
      BlocksFrom(p, ends, order[..k]) + if order[k] < ends[order[k]].end then [SplitBlock(p, ends, order[k])] else []
  {
    var more := order[..k + 1];
    assert more[|more| - 1] == order[k] && more[..|more| - 1] == order[..k];
  }

  lemma {:induction false} BlocksFromOk(p: Program, ends: map<Addr, Ending>, order: seq<Addr>)
    requires p.Valid() && forall s :: s in order ==> s in ends
    requires Ascending(order)
    ensures forall b :: b in BlocksFrom(p, ends, order) ==>
      b.range.start in order && b.range.start < ends[b.range.start].end && b == SplitBlock(p, ends, b.range.start)
    ensures forall i, j :: 0 <= i < j < |BlocksFrom(p, ends, order)| ==>
      BlocksFrom(p, ends, order)[i].range.start < BlocksFrom(p, ends, order)[j].range.start
    ensures forall s :: s in order && s < ends[s].end ==> SplitBlock(p, ends, s) in BlocksFrom(p, ends, order)
  {
    if order != [] {
      var less, s := order[..|order| - 1], order[|order| - 1];
      BlocksFromOk(p, ends, less);
      assert forall x :: x in order <==> x in less || x == s;
      var was, all := BlocksFrom(p, ends, less), BlocksFrom(p, ends, order);
      forall i, j | 0 <= i < j < |all| ensures all[i].range.start < all[j].range.start {
        assert was[i] in was && all[i] == was[i];
        if j == |was| {
          assert all[j] == SplitBlock(p, ends, s);
        }
      }
    }
  }

  lemma BlockFound(p: Program, ends: map<Addr, Ending>, blocks: seq<Block>, s: Addr) returns (i: nat)
    requires p.Valid() && s in ends && SplitBlock(p, ends, s) in blocks
    ensures i < |blocks| && blocks[i].range.start == s
  {
    i :| 0 <= i < |blocks| && blocks[i] == SplitBlock(p, ends, s);
  }

  lemma BlocksOfAll(p: Program, ends: map<Addr, Ending>)
    requires p.Valid()
    ensures BlocksOf(p, ends, BlocksFrom(p, ends, Sorted(ends.Keys)))
  {
    var order := Sorted(ends.Keys);
    BlocksFromOk(p, ends, order);
    var blocks := BlocksFrom(p, ends, order);
    forall i | 0 <= i < |blocks|
      ensures var s := blocks[i].range.start; s in ends && s < ends[s].end && blocks[i] == SplitBlock(p, ends, s)
    {
      assert blocks[i] in blocks;
    }
    forall s | s in ends && s < ends[s].end ensures exists i :: 0 <= i < |blocks| && blocks[i].range.start == s {
      var i := BlockFound(p, ends, blocks, s);
    }
  }

  /** Cut one run at the first start inside it, recounting what was cut. */
  method SplitRun(p: Program, ends: map<Addr, Ending>, start: Addr) returns (block: Block)
    requires p.Valid() && start in ends && ends[start].count > 0
    ensures block == SplitBlock(p, ends, start)
  {
    var e := ends[start];
    var cut := Cut(ends, start);
    var end := if cut.Some? then cut.value else e.end;
    var insns := if cut.Some? then 0 else e.count;
    if insns == 0 {
      insns := CountInsns(p, start, end);
    }
    block := if cut.Some? then Block(Range(start, end), [end], insns, false, Terminator.Flow)
             else Block(Range(start, end), e.succs, insns, e.unresolved, e.term);
  }

  method Split(p: Program, ends: map<Addr, Ending>) returns (blocks: seq<Block>)
    requires p.Valid()
    requires forall s :: s in ends && s < ends[s].end ==> ends[s].count > 0
    ensures blocks == BlocksFrom(p, ends, Sorted(ends.Keys))
  {
    var order := Sorted(ends.Keys);
    blocks := [];
    for k := 0 to |order|
      invariant blocks == BlocksFrom(p, ends, order[..k])
    {
      BlocksFromStep(p, ends, order, k);
      if order[k] < ends[order[k]].end {
        var block := SplitRun(p, ends, order[k]);
        blocks := blocks + [block];
      }
    }
    assert order[..|order|] == order;
  }

  // ------------------------------------------------- what a walk gives back

  /** Everything the walk leaves behind, tied to the runs it decoded. */
  ghost predicate Result(job: Job, caps: Caps, raw: RawCfg, ends: map<Addr, Ending>, bodies: map<Addr, seq<Insn>>)
    requires job.p.Valid()
  {
    RunsOk(job, ends, bodies, raw.halt) && (forall s :: s in ends ==> job.Landing(s)) &&
    (raw.halt == Complete ==> Rooted(job, ends.Keys, {}) && Closed(job, ends, {})) &&
    Summed(job, bodies, raw.calls, raw.hasIndirect) && raw.entry == job.entry &&
    |ends| <= caps.functionBlocks && Spent(bodies) <= caps.functionInsns &&
    BlocksOf(job.p, ends, raw.blocks)
  }

  /** Walk one function from its entry. */
  method BuildRaw(job: Job, caps: Caps)
    returns (raw: RawCfg, ghost ends: map<Addr, Ending>, ghost bodies: map<Addr, seq<Insn>>)
    requires job.p.Valid()
    ensures Result(job, caps, raw, ends, bodies)
    ensures Traces(job, caps, ends, bodies, raw.halt)
  {
    var found, calls, indirect, halt;
    found, calls, indirect, halt, bodies := Descend(job, caps);
    forall s | s in found && s < found[s].end ensures found[s].count > 0 {
      assert RunOk(job, s, bodies[s], found[s], found.Keys, halt);
    }
    var blocks := Split(job.p, found);
    BlocksOfAll(job.p, found);
    raw := RawCfg(job.entry, blocks, calls, indirect, halt);
    ends := found;
  }
}
