/** When an analysis survives the cache, and why a walked one does. */
module CacheTheorems {
  import opened Ordered
  import opened Image
  import opened Walk
  import opened Blocks
  import opened WalkTheorems
  import opened Wire
  import opened Codec
  import opened CodecTheorems
  import opened CachedAnalysis
  import Interner

  /** Every function is filed under its own entry. */
  ghost predicate Filed(functions: map<Addr, Plain>) {
    forall a :: a in functions ==> functions[a].entry == a
  }

  ghost function AllKept(functions: map<Addr, Plain>): (r: map<Addr, Plain>)
    ensures r.Keys == functions.Keys && forall a :: a in functions ==> r[a] == Cached(functions[a])
  {
    map a | a in functions :: Cached(functions[a])
  }

  /** Gathering a list whose entries are all different files each one. */
  lemma {:induction false} GatherDistinct(fs: seq<Plain>)
    requires forall i, j :: 0 <= i < j < |fs| ==> fs[i].entry != fs[j].entry
    ensures forall a :: a in Gather(fs) ==> exists i :: 0 <= i < |fs| && fs[i].entry == a
    ensures forall i :: 0 <= i < |fs| ==> fs[i].entry in Gather(fs) && Gather(fs)[fs[i].entry] == fs[i]
  {
    if fs != [] {
      var less := fs[..|fs| - 1];
      GatherDistinct(less);
      forall a | a in Gather(fs) ensures exists i :: 0 <= i < |fs| && fs[i].entry == a {
        if a in Gather(less) {
          var i :| 0 <= i < |less| && less[i].entry == a;
          assert fs[i].entry == a;
        } else {
          assert fs[|fs| - 1].entry == a;
        }
      }
      forall i | 0 <= i < |fs| ensures fs[i].entry in Gather(fs) && Gather(fs)[fs[i].entry] == fs[i] {
        if i < |less| {
          assert less[i] == fs[i];
        }
      }
    }
  }

  /** The functions of a map in the order of its keys. */
  ghost predicate InKeyOrder(fs: seq<Plain>, keys: seq<Addr>, functions: map<Addr, Plain>) {
    |fs| == |keys| &&
    forall k :: 0 <= k < |keys| ==> keys[k] in functions && fs[k] == Cached(functions[keys[k]]) && fs[k].entry == keys[k]
  }

  lemma OrderedByKey(functions: map<Addr, Plain>)
    requires Filed(functions)
    ensures InKeyOrder(AllCached(InOrder(functions)), Sorted(functions.Keys), functions)
  {
    var keys, fs := Sorted(functions.Keys), InOrder(functions);
    forall k | 0 <= k < |keys|
      ensures keys[k] in functions && AllCached(fs)[k] == Cached(functions[keys[k]]) && AllCached(fs)[k].entry == keys[k]
    {
      assert keys[k] in keys && fs[k] == functions[keys[k]];
    }
  }

  lemma GatherKeyOrder(fs: seq<Plain>, keys: seq<Addr>, functions: map<Addr, Plain>)
    requires InKeyOrder(fs, keys, functions) && Ascending(keys) && forall a :: a in keys <==> a in functions
    ensures Gather(fs) == AllKept(functions)
  {
    GatherDistinct(fs);
    var got, want := Gather(fs), AllKept(functions);
    forall a ensures a in got <==> a in want {
      if a in got {
        var i :| 0 <= i < |fs| && fs[i].entry == a;
      }
      if a in want {
        var k :| 0 <= k < |keys| && keys[k] == a;
        assert fs[k].entry == a;
      }
    }
    forall a | a in got ensures got[a] == want[a] {
      var i :| 0 <= i < |fs| && fs[i].entry == a;
    }
  }

  lemma GatherInOrder(functions: map<Addr, Plain>)
    requires Filed(functions)
    ensures Gather(AllCached(InOrder(functions))) == AllKept(functions)
  {
    OrderedByKey(functions);
    GatherKeyOrder(AllCached(InOrder(functions)), Sorted(functions.Keys), functions);
  }

  /** The round trip: an analysis that fits its fields comes back as the same
      functions, no-return set and rounds exactly when every block count holds,
      and does not come back at all otherwise. */
  lemma RoundTrip(a: Analysis<seq<Block>>)
    requires Filed(a.functions) && FitsListing(Listed(a))
    ensures match ReadListing(ListingBytes(Listed(a)))
      case None => !Roomy(Listed(a))
      case Some(l) =>
        (Roomy(Listed(a)) &&
         Gather(l.functions) == AllKept(a.functions) && Elems(l.noreturn) == a.noreturn && l.rounds == a.rounds)
  {
    ListingReads(Listed(a));
    ComesBack(a, CachedListing(Listed(a)));
  }

  lemma ComesBack(a: Analysis<seq<Block>>, l: Listing)
    requires Filed(a.functions) && l == CachedListing(Listed(a))
    ensures Gather(l.functions) == AllKept(a.functions) && Elems(l.noreturn) == a.noreturn && l.rounds == a.rounds
  {
    GatherInOrder(a.functions);
  }

  /** Nothing at all is lost when no function has more than 255 corroborations. */
  lemma NothingTrimmed(functions: map<Addr, Plain>)
    ensures AllKept(functions) == functions <==>
      forall a :: a in functions ==> |functions[a].provenance.corroborating| <= 255
  {
    if AllKept(functions) == functions {
      forall a | a in functions ensures |functions[a].provenance.corroborating| <= 255 {
        assert Cached(functions[a]) == functions[a];
      }
    }
  }

  /** A block is looked up in a restored function as in the one that was stored. */
  lemma LooksUp(f: Shared, p: Plain, at: Addr)
    requires Restored(f, p)
    requires forall i, j :: 0 <= i < j < |p.cfg.blocks| ==> p.cfg.blocks[i].range.start < p.cfg.blocks[j].range.start
    ensures f.cfg.blocks.Get(at).None? <==> forall k :: 0 <= k < |p.cfg.blocks| ==> p.cfg.blocks[k].range.start != at
    ensures forall k :: 0 <= k < |p.cfg.blocks| && p.cfg.blocks[k].range.start == at ==>
      f.cfg.blocks.Get(at) == Some(p.cfg.blocks[k])
  {
    var b := f.cfg.blocks;
    assert p.cfg.blocks == CachedAnalysis.BlocksOf(b);
    Interner.GetIsMapLookup(b, at);
  }

  // ---------------------------------------------------------- enough edges

  /** A graph with at least one edge fewer than it has blocks passes its count. */
  lemma EnoughEdges(l: Listing)
    requires forall k :: 0 <= k < |l.functions| ==> |l.functions[k].cfg.blocks| <= Edges(l.functions[k].cfg.blocks) + 1
    ensures Roomy(l)
  {
  }

  /** All successors of all blocks, in order. */
  ghost function Successors(blocks: seq<Block>): (r: seq<Addr>)
    ensures |r| == Edges(blocks)
  {
    if blocks == [] then [] else Successors(blocks[..|blocks| - 1]) + blocks[|blocks| - 1].successors
  }

  lemma {:induction false} SuccessorListed(blocks: seq<Block>, i: nat, t: Addr)
    requires i < |blocks| && t in blocks[i].successors
    ensures t in Successors(blocks)
  {
    if i < |blocks| - 1 {
      SuccessorListed(blocks[..|blocks| - 1], i, t);
    }
  }

  lemma StartReached(job: Job, caps: Caps, raw: RawCfg, ends: map<Addr, Ending>, bodies: map<Addr, seq<Insn>>, x: Addr)
    requires job.p.Valid() && Result(job, caps, raw, ends, bodies) && raw.halt == Complete && job.NoOverlap()
    requires x in Starts(raw.blocks)
    ensures x == job.entry || x in Successors(raw.blocks)
  {
    var j :| 0 <= j < |raw.blocks| && Starts(raw.blocks)[j] == x;
    if x != job.entry {
      var i := BlockIsEntered(job, caps, raw, ends, bodies, j);
      SuccessorListed(raw.blocks, i, x);
    }
  }

  lemma StartsDistinct(job: Job, caps: Caps, raw: RawCfg, ends: map<Addr, Ending>, bodies: map<Addr, seq<Insn>>)
    requires job.p.Valid() && Result(job, caps, raw, ends, bodies)
    ensures Distinct(Starts(raw.blocks))
  {
  }

  lemma EdgesCount(starts: seq<Addr>, successors: seq<Addr>, entry: Addr)
    requires Distinct(starts) && forall x :: x in starts ==> x == entry || x in successors
    ensures |starts| <= |successors| + 1
  {
    DistinctFits(starts, Elems(successors) + {entry});
    ElemsFewer(successors);
  }

  /** A complete walk of an image whose instructions do not overlap leaves at
      least one edge fewer than it leaves blocks, so its graph always survives. */
  lemma WalkHasEdges(job: Job, caps: Caps, raw: RawCfg, ends: map<Addr, Ending>, bodies: map<Addr, seq<Insn>>)
    requires job.p.Valid() && Result(job, caps, raw, ends, bodies) && raw.halt == Complete && job.NoOverlap()
    ensures |raw.blocks| <= Edges(raw.blocks) + 1
  {
    StartsDistinct(job, caps, raw, ends, bodies);
    forall x | x in Starts(raw.blocks) ensures x == job.entry || x in Successors(raw.blocks) {
      StartReached(job, caps, raw, ends, bodies, x);
    }
    EdgesCount(Starts(raw.blocks), Successors(raw.blocks), job.entry);
  }

  /** A lone function of blocks that lead nowhere is refused from five blocks on:
      four bytes a block are asked for beyond what it takes, and eighteen follow. */
  lemma LeavesRefused(l: Listing, f: Plain)
    requires FitsListing(l) && l.functions == [f] && l.noreturn == []
    requires f.cfg.calls == [] && f.cfg.tables == [] && Edges(f.cfg.blocks) == 0
    ensures ReadListing(ListingBytes(l)) == if |f.cfg.blocks| <= 4 then Some(CachedListing(l)) else None
  {
    ListingReads(l);
    assert l.functions[1..] == [];
    assert CountHolds(l, 0) <==> |f.cfg.blocks| <= 4;
  }
}
