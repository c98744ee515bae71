/** Reading a function's instructions back out of its blocks
    (crates/e5r-analysis/src/cfg.rs). */
module Streaming {
  import opened Ordered
  import opened Image
  import opened Walk
  import opened Blocks
  import WalkTheorems

  /** Every block's instructions, block after block. */
  ghost function StreamAll(p: Program, blocks: seq<Block>): seq<Insn>
    requires p.Valid()
  {
    if blocks == [] then [] else
    StreamAll(p, blocks[..|blocks| - 1]) +
      Stream(p, blocks[|blocks| - 1].range.start, blocks[|blocks| - 1].range.end)
  }

  /** No instruction arrives below the one before it. */
  ghost predicate InOrder(insns: seq<Insn>) {
    |insns| < 2 || (InOrder(insns[..|insns| - 1]) && insns[|insns| - 2].addr <= insns[|insns| - 1].addr)
  }

  ghost predicate AddrsAscend(insns: seq<Insn>) {
    forall i, j :: 0 <= i < j < |insns| ==> insns[i].addr < insns[j].addr
  }

  lemma StreamAllStep(p: Program, blocks: seq<Block>, k: nat)
    requires p.Valid() && k < |blocks|
    ensures StreamAll(p, blocks[..k + 1]) == StreamAll(p, blocks[..k]) + Stream(p, blocks[k].range.start, blocks[k].range.end)
  {
    assert blocks[..k + 1][..k] == blocks[..k];
  }

  lemma InOrderSnoc(insns: seq<Insn>, i: Insn)
    ensures InOrder(insns + [i]) == (InOrder(insns) && (insns == [] || insns[|insns| - 1].addr <= i.addr))
  {
    assert (insns + [i])[..|insns|] == insns;
  }

  /** Hand out one block's instructions, noting any that arrive out of order. */
  method ForEachInBlock(p: Program, start: Addr, end: Addr, before: seq<Insn>, wasOrdered: bool)
    returns (out: seq<Insn>, ordered: bool)
    requires p.Valid() && wasOrdered == InOrder(before)
    ensures out == before + Stream(p, start, end)
    ensures ordered == InOrder(out)
  {
    var at := start;
    out, ordered := before, wasOrdered;
    while at < end && at in p.code
      invariant out + Stream(p, at, end) == before + Stream(p, start, end)
      invariant ordered == InOrder(out)
      decreases end - at
    {
      var insn := p.code[at];
      InOrderSnoc(out, insn);
      ordered := ordered && (out == [] || out[|out| - 1].addr <= insn.addr);
      assert out + ([insn] + Stream(p, insn.End(), end)) == (out + [insn]) + Stream(p, insn.End(), end);
      out := out + [insn];
      at := insn.End();
    }
  }

  /** The streaming pass over a function: every block in turn, and whether the
      instructions came out in address order. */
  method ForEachInstruction(p: Program, blocks: seq<Block>) returns (out: seq<Insn>, ordered: bool)
    requires p.Valid()
    ensures out == StreamAll(p, blocks)
    ensures ordered == InOrder(out)
  {
    out, ordered := [], true;
    for b := 0 to |blocks|
      invariant out == StreamAll(p, blocks[..b])
      invariant ordered == InOrder(out)
    {
      StreamAllStep(p, blocks, b);
      out, ordered := ForEachInBlock(p, blocks[b].range.start, blocks[b].range.end, out, ordered);
    }
    assert blocks[..|blocks|] == blocks;
  }

  lemma {:induction false} StreamAscends(p: Program, at: Addr, end: Addr)
    requires p.Valid()
    ensures AddrsAscend(Stream(p, at, end))
    ensures forall x: Insn :: x in Stream(p, at, end) ==> at <= x.addr < end
    decreases end - at
  {
    if at < end && at in p.code {
      var rest := Stream(p, p.code[at].End(), end);
      StreamAscends(p, p.code[at].End(), end);
      assert forall i :: 0 <= i < |rest| ==> rest[i] in rest;
    }
  }

  lemma {:induction false} StreamAllAscends(p: Program, blocks: seq<Block>)
    requires p.Valid()
    requires forall i, j :: 0 <= i < j < |blocks| ==> blocks[i].range.end <= blocks[j].range.start
    ensures AddrsAscend(StreamAll(p, blocks))
    ensures forall x: Insn :: x in StreamAll(p, blocks) ==> exists i :: 0 <= i < |blocks| && x.addr < blocks[i].range.end
  {
    if blocks != [] {
      var less, last := blocks[..|blocks| - 1], blocks[|blocks| - 1];
      StreamAllAscends(p, less);
      StreamAscends(p, last.range.start, last.range.end);
      var was, part := StreamAll(p, less), Stream(p, last.range.start, last.range.end);
      forall x: Insn | x in was + part ensures exists i :: 0 <= i < |blocks| && x.addr < blocks[i].range.end {
        if x in was {
          var i :| 0 <= i < |less| && x.addr < less[i].range.end;
          assert blocks[i] == less[i];
        } else {
          assert x in part && blocks[|blocks| - 1] == last;
        }
      }
      forall i, j | 0 <= i < j < |was + part| ensures (was + part)[i].addr < (was + part)[j].addr {
        if i < |was| <= j {
          assert was[i] in was && part[j - |was|] in part;
        }
      }
    }
  }

  lemma {:induction false} AscendInOrder(insns: seq<Insn>)
    requires AddrsAscend(insns)
    ensures InOrder(insns)
  {
    if |insns| >= 2 {
      AscendInOrder(insns[..|insns| - 1]);
    }
  }

  lemma {:induction false} LastIsMost(a: seq<Insn>)
    requires a != [] && InOrder(a)
    ensures forall x: Insn :: x in a ==> x.addr <= a[|a| - 1].addr
  {
    if |a| > 1 {
      var less := a[..|a| - 1];
      LastIsMost(less);
      assert forall x :: x in a ==> x in less || x == a[|a| - 1];
    }
  }

  lemma DropLast(a: seq<Insn>, n: nat)
    requires |a| == n + 1
    ensures multiset(a[..n]) == multiset(a) - multiset{a[n]}
    ensures a == a[..n] + [a[n]]
  {
    assert a == a[..n] + [a[n]];
  }

  /** A sorted arrangement of strictly ascending instructions is the same list. */
  lemma {:induction false} SortedSame(a: seq<Insn>, b: seq<Insn>)
    requires multiset(a) == multiset(b) && AddrsAscend(b) && InOrder(a)
    ensures a == b
  {
    SameLength(a, b);
    if b != [] {
      var n := |b| - 1;
      SameLast(a, b);
      SameRest(a, b, n);
      OrderedRest(a, n);
      AscendingRest(b, n);
      SortedSame(a[..n], b[..n]);
    }
  }

  lemma SameRest(a: seq<Insn>, b: seq<Insn>, n: nat)
    requires multiset(a) == multiset(b) && |a| == |b| == n + 1 && a[n] == b[n]
    ensures multiset(a[..n]) == multiset(b[..n])
    ensures a == a[..n] + [a[n]] && b == b[..n] + [b[n]]
  {
    DropLast(a, n);
    DropLast(b, n);
  }

  lemma OrderedRest(a: seq<Insn>, n: nat)
    requires InOrder(a) && |a| == n + 1
    ensures InOrder(a[..n])
  {
    assert n == |a| - 1;
  }

  lemma AscendingRest(b: seq<Insn>, n: nat)
    requires AddrsAscend(b) && |b| == n + 1
    ensures AddrsAscend(b[..n])
  {
  }

  lemma SameLength(a: seq<Insn>, b: seq<Insn>)
    requires multiset(a) == multiset(b)
    ensures |a| == |b|
  {
    assert |a| == |multiset(a)| == |multiset(b)| == |b|;
  }

  lemma SameLast(a: seq<Insn>, b: seq<Insn>)
    requires multiset(a) == multiset(b) && AddrsAscend(b) && InOrder(a) && |a| == |b| > 0
    ensures a[|a| - 1] == b[|b| - 1]
  {
    var x, y := a[|a| - 1], b[|b| - 1];
    assert y in multiset(b) && x in multiset(a);
    assert y in a && x in b;
    LastIsMost(a);
    var i :| 0 <= i < |b| && b[i] == x;
    assert i == |b| - 1;
  }

  /** The blocks of any walk stream in strictly ascending order: the streaming
      pass always reports order, and sorting what it collects changes nothing. */
  lemma StreamsInOrder(job: Job, caps: Caps, raw: RawCfg, ends: map<Addr, Ending>, bodies: map<Addr, seq<Insn>>, sorted: seq<Insn>)
    requires job.p.Valid() && Result(job, caps, raw, ends, bodies)
    requires multiset(sorted) == multiset(StreamAll(job.p, raw.blocks)) && InOrder(sorted)
    ensures InOrder(StreamAll(job.p, raw.blocks))
    ensures sorted == StreamAll(job.p, raw.blocks)
  {
    forall i, j | 0 <= i < j < |raw.blocks| ensures raw.blocks[i].range.end <= raw.blocks[j].range.start {
      WalkTheorems.BlocksDisjoint(job, caps, raw, ends, bodies, i);
    }
    StreamAllAscends(job.p, raw.blocks);
    AscendInOrder(StreamAll(job.p, raw.blocks));
    SortedSame(sorted, StreamAll(job.p, raw.blocks));
  }
}
