/** Dominator sets by iteration in place (crates/e5r-api/src/dataflow.rs). */
module Dominators {
  import opened Ordered
  import opened Ssa

  const MAX_BLOCKS_FOR_GUARDS: nat := 512

  type Sets = map<Addr, set<Addr>>

  /** What one block's set becomes: the block, and what all its listed
      predecessors agree on. */
  ghost function Meet(f: SsaFunction, sets: Sets, b: Addr): set<Addr>
    requires b in f.blocks && sets.Keys == f.blocks.Keys
  {
    {b} + MeetOf(sets, f.blocks[b].predecessors)
  }

  /** What the sets of all listed predecessors have in common; nothing when no
      predecessor is listed. */
  ghost function MeetOf(sets: Sets, preds: seq<Addr>): set<Addr> {
    set d | d in All(sets) && (exists p :: p in preds && p in sets) && InAll(sets, preds, d)
  }

  ghost function All(sets: Sets): set<Addr> {
    set p, d | p in sets && d in sets[p] :: d
  }

  ghost predicate InAll(sets: Sets, preds: seq<Addr>, d: Addr) {
    forall p :: p in preds && p in sets ==> d in sets[p]
  }

  /** Intersect the sets of the predecessors that are blocks of the function. */
  method Merge(sets: Sets, preds: seq<Addr>) returns (merged: set<Addr>)
    ensures merged == MeetOf(sets, preds)
  {
    var acc: Option<set<Addr>> := None;
    for k := 0 to |preds|
      invariant acc.None? <==> forall p :: p in preds[..k] ==> p !in sets
      invariant acc.Some? ==> acc.value == MeetOf(sets, preds[..k])
    {
      assert preds[..k + 1] == preds[..k] + [preds[k]];
      if preds[k] in sets {
        var d := sets[preds[k]];
        acc := match acc case Some(s) => Some(s * d) case None => Some(d);
      }
    }
    assert preds[..|preds|] == preds;
    merged := match acc case Some(s) => s case None => {};
  }

  // ------------------------------------------------------------ termination

  ghost function Weight(sets: Sets): nat
    decreases |sets|
  {
    if sets.Keys == {} then 0 else
    var b := Min(sets.Keys);
    |sets[b]| + Weight(sets - {b})
  }

  lemma {:induction false} WeightAny(sets: Sets, b: Addr)
    requires b in sets
    ensures Weight(sets) == |sets[b]| + Weight(sets - {b})
    decreases |sets|
  {
    var m := Min(sets.Keys);
    if m != b {
      WeightAny(sets - {m}, b);
      assert (sets - {m}) - {b} == (sets - {b}) - {m};
      var rest := sets - {b};
      assert rest.Keys == sets.Keys - {b} && m in rest.Keys;
      assert Min(rest.Keys) == m;
    }
  }

  /** Shrinking one set lowers the weight, so the iteration ends. */
  lemma WeightDrops(sets: Sets, b: Addr, next: set<Addr>)
    requires b in sets && next < sets[b]
    ensures Weight(sets[b := next]) < Weight(sets)
  {
    WeightAny(sets, b);
    WeightAny(sets[b := next], b);
    assert sets[b := next] - {b} == sets - {b};
    assert sets[b] == next + (sets[b] - next);
  }

  // --------------------------------------------------------------- invariant

  /** Between updates: no set has lost a block that is on every path, and no
      set is smaller than what its predecessors would make it. */
  ghost predicate Descending(f: SsaFunction, sets: Sets) {
    match f
    case SsaFunction(entry, blocks) =>
      sets.Keys == blocks.Keys &&
      (forall b :: b in blocks ==> sets[b] <= blocks.Keys) &&
      (entry in blocks ==> sets[entry] == {entry}) &&
      (forall b :: b in blocks && b != entry ==> Meet(f, sets, b) <= sets[b]) &&
      (forall b, d :: b in blocks && d in blocks && f.OnEveryPath(d, b) ==> d in sets[b])
  }

  /** A block on every path to `b`, other than `b`, is on every path to each of
      its predecessors. */
  lemma OnPathsToPred(f: SsaFunction, d: Addr, b: Addr, p: Addr)
    requires f.OnEveryPath(d, b) && d != b && f.Edge(p, b)
    ensures f.OnEveryPath(d, p)
  {
    forall path | f.PathFromRoot(path, p) ensures d in path {
      var longer := path + [b];
      assert forall k :: 0 <= k < |longer| - 1 ==> longer[k] == path[k];
      assert f.PathFromRoot(longer, b);
      assert d in longer;
    }
  }

  lemma RootOnlyItself(f: SsaFunction, d: Addr, b: Addr)
    requires f.Root(b) && f.OnEveryPath(d, b)
    ensures d == b
  {
    assert f.PathFromRoot([b], b);
    assert d in [b];
  }

  lemma MeetKeepsPathBlocks(f: SsaFunction, sets: Sets, b: Addr, d: Addr)
    requires Descending(f, sets) && b in f.blocks && b != f.entry && d in f.blocks && f.OnEveryPath(d, b)
    ensures d in Meet(f, sets, b)
  {
    if d != b {
      var preds := f.blocks[b].predecessors;
      assert exists p :: p in preds && p in sets by {
        if f.Root(b) {
          RootOnlyItself(f, d, b);
        }
      }
      forall p | p in preds && p in sets ensures d in sets[p] {
        OnPathsToPred(f, d, b, p);
      }
      assert InAll(sets, preds, d);
      assert d in MeetOf(sets, preds);
    }
  }

  lemma MeetShrinks(f: SsaFunction, more: Sets, less: Sets, b: Addr)
    requires b in f.blocks && more.Keys == less.Keys == f.blocks.Keys
    requires forall p :: p in less ==> less[p] <= more[p]
    ensures Meet(f, less, b) <= Meet(f, more, b)
  {
    forall d | d in MeetOf(less, f.blocks[b].predecessors) ensures d in MeetOf(more, f.blocks[b].predecessors) {
      assert d in All(more);
    }
  }

  /** After one block is recomputed no set is smaller than its own meet. */
  lemma UpdateShrinks(f: SsaFunction, sets: Sets, b: Addr, c: Addr)
    requires Descending(f, sets) && b in f.blocks && b != f.entry && c in f.blocks && c != f.entry
    ensures Meet(f, sets[b := Meet(f, sets, b)], c) <= sets[b := Meet(f, sets, b)][c]
  {
    var next := sets[b := Meet(f, sets, b)];
    assert next.Keys == sets.Keys;
    forall p | p in next ensures next[p] <= sets[p] {
    }
    MeetShrinks(f, sets, next, c);
  }

  lemma UpdateKeeps(f: SsaFunction, sets: Sets, b: Addr, c: Addr, d: Addr)
    requires Descending(f, sets) && b in f.blocks && b != f.entry && c in f.blocks && d in f.blocks && f.OnEveryPath(d, c)
    ensures d in sets[b := Meet(f, sets, b)][c]
  {
    if c == b {
      MeetKeepsPathBlocks(f, sets, b, d);
    }
  }

  lemma UpdateWithin(f: SsaFunction, sets: Sets, b: Addr)
    requires Descending(f, sets) && b in f.blocks && b != f.entry
    ensures Meet(f, sets, b) <= f.blocks.Keys && sets[b := Meet(f, sets, b)].Keys == f.blocks.Keys
  {
  }

  /** Writing one block's meet back in place keeps the invariant. */
  lemma UpdateDescends(f: SsaFunction, sets: Sets, b: Addr)
    requires Descending(f, sets) && b in f.blocks && b != f.entry
    ensures Descending(f, sets[b := Meet(f, sets, b)])
  {
    var next := sets[b := Meet(f, sets, b)];
    UpdateWithin(f, sets, b);
    forall c | c in f.blocks && c != f.entry ensures Meet(f, next, c) <= next[c] {
      UpdateShrinks(f, sets, b, c);
    }
    UpdateKeepsAll(f, sets, b);
  }

  lemma UpdateKeepsAll(f: SsaFunction, sets: Sets, b: Addr)
    requires Descending(f, sets) && b in f.blocks && b != f.entry
    ensures forall c, d :: c in f.blocks && d in f.blocks && f.OnEveryPath(d, c) ==> d in sets[b := Meet(f, sets, b)][c]
  {
    forall c, d | c in f.blocks && d in f.blocks && f.OnEveryPath(d, c) ensures d in sets[b := Meet(f, sets, b)][c] {
      UpdateKeeps(f, sets, b, c, d);
    }
  }

  /** Nothing changes when every block other than the entry is recomputed. */
  ghost predicate Settled(f: SsaFunction, sets: Sets, done: set<Addr>) {
    match f
    case SsaFunction(entry, blocks) =>
      sets.Keys == blocks.Keys && forall b :: b in done && b in blocks && b != entry ==> sets[b] == Meet(f, sets, b)
  }

  lemma PathBack(f: SsaFunction, path: seq<Addr>, b: Addr)
    requires f.PathFromRoot(path, b) && |path| > 1
    ensures f.Edge(path[|path| - 2], b) && f.PathFromRoot(path[..|path| - 1], path[|path| - 2])
  {
    var less := path[..|path| - 1];
    forall k | 0 <= k < |less| - 1 ensures f.Edge(less[k], less[k + 1]) {
      assert f.Edge(path[k], path[k + 1]);
    }
    assert f.Edge(path[|path| - 2], path[|path| - 1]);
  }

  /** At a fixed point what a block lists, its predecessors list, but for itself. */
  lemma SettledBack(f: SsaFunction, sets: Sets, b: Addr, d: Addr, p: Addr)
    requires Descending(f, sets) && Settled(f, sets, f.blocks.Keys)
    requires b in f.blocks && b != f.entry && d in sets[b] && d != b && f.Edge(p, b)
    ensures p in sets && d in sets[p]
  {
    assert sets[b] == Meet(f, sets, b);
  }

  /** At a fixed point a listed block is on every path from a root. */
  lemma {:induction false} FixedPointOnPaths(f: SsaFunction, sets: Sets, b: Addr, d: Addr, path: seq<Addr>)
    requires Descending(f, sets) && Settled(f, sets, f.blocks.Keys)
    requires b in f.blocks && d in sets[b] && f.PathFromRoot(path, b)
    ensures d in path
    decreases |path|
  {
    if d == b {
      assert path[|path| - 1] == b;
    } else if |path| > 1 && b != f.entry {
      var p, less := path[|path| - 2], path[..|path| - 1];
      PathBack(f, path, b);
      SettledBack(f, sets, b, d, p);
      FixedPointOnPaths(f, sets, p, d, less);
    } else {
      RootListsItself(f, sets, b, d);
    }
  }

  lemma NothingMeets(f: SsaFunction, sets: Sets, b: Addr, d: Addr)
    requires sets.Keys == f.blocks.Keys && b in f.blocks && forall p :: p in f.blocks[b].predecessors ==> p !in f.blocks
    requires Settled(f, sets, f.blocks.Keys) && b != f.entry && d in sets[b]
    ensures d == b
  {
    assert sets[b] == Meet(f, sets, b);
  }

  lemma RootListsItself(f: SsaFunction, sets: Sets, b: Addr, d: Addr)
    requires Descending(f, sets) && Settled(f, sets, f.blocks.Keys) && b in f.blocks && d in sets[b]
    requires f.Root(b)
    ensures d == b
  {
    if b != f.entry {
      NothingMeets(f, sets, b, d);
    }
  }

  /** The sets a run of `Compute` within the block limit leaves. */
  ghost predicate Computed(f: SsaFunction, sets: Sets) {
    match f
    case SsaFunction(_, blocks) =>
      sets.Keys == blocks.Keys && (forall b :: b in blocks ==> sets[b] <= blocks.Keys) &&
      forall b, d :: b in blocks && d in blocks ==> (d in sets[b] <==> f.OnEveryPath(d, b))
  }

  /** Which blocks every path to a block goes through. */
  method Compute(f: SsaFunction) returns (sets: Sets)
    ensures sets.Keys == f.blocks.Keys
    ensures |f.blocks| <= MAX_BLOCKS_FOR_GUARDS ==> Computed(f, sets)
    ensures |f.blocks| > MAX_BLOCKS_FOR_GUARDS ==>
      forall b :: b in f.blocks ==> sets[b] == if b == f.entry then {b} else f.blocks.Keys
    ensures forall b :: b in f.blocks ==> sets[b] <= f.blocks.Keys
  {
    var all := f.blocks.Keys;
    sets := map b | b in all :: if b == f.entry then {b} else all;
    if |all| > MAX_BLOCKS_FOR_GUARDS {
      return;
    }
    StartDescends(f, sets);
    var changed := true;
    while changed
      invariant Descending(f, sets)
      invariant !changed ==> Settled(f, sets, f.blocks.Keys)
      decreases Weight(sets), changed
    {
      sets, changed := Round(f, sets);
    }
    forall b, d | b in f.blocks && d in f.blocks ensures d in sets[b] <==> f.OnEveryPath(d, b) {
      if d in sets[b] {
        forall path | f.PathFromRoot(path, b) ensures d in path {
          FixedPointOnPaths(f, sets, b, d, path);
        }
      }
    }
  }

  /** Recompute one block's set in place. */
  method Recompute(f: SsaFunction, was: Sets, at: Addr) returns (sets: Sets, changed: bool)
    requires Descending(f, was) && at in f.blocks
    ensures Descending(f, sets)
    ensures if changed then Weight(sets) < Weight(was) else sets == was
    ensures !changed && at != f.entry ==> was[at] == Meet(f, was, at)
  {
    sets, changed := was, false;
    if at != f.entry {
      var merged := Merge(sets, f.blocks[at].predecessors);
      var next := merged + {at};
      assert next == Meet(f, sets, at);
      if sets[at] != next {
        UpdateDescends(f, sets, at);
        WeightDrops(sets, at, next);
        sets := sets[at := next];
        changed := true;
      }
    }
  }

  /** One round over the blocks in address order, each seeing what the ones
      before it in the same round became. */
  method Round(f: SsaFunction, was: Sets) returns (sets: Sets, changed: bool)
    requires Descending(f, was)
    ensures Descending(f, sets)
    ensures changed ==> Weight(sets) < Weight(was)
    ensures !changed ==> sets == was && Settled(f, sets, f.blocks.Keys)
  {
    var order := Sorted(f.blocks.Keys);
    sets, changed := was, false;
    for k := 0 to |order|
      invariant Descending(f, sets)
      invariant changed ==> Weight(sets) < Weight(was)
      invariant !changed ==> sets == was && Settled(f, sets, Elems(order[..k]))
    {
      var c;
      sets, c := Recompute(f, sets, order[k]);
      if !changed && !c {
        SettledStep(f, sets, order, k);
      }
      changed := changed || c;
    }
    if !changed {
      SettledAll(f, sets, order);
    }
  }

  lemma SettledStep(f: SsaFunction, sets: Sets, order: seq<Addr>, k: nat)
    requires k < |order| && Settled(f, sets, Elems(order[..k])) && order[k] in f.blocks
    requires order[k] != f.entry ==> sets[order[k]] == Meet(f, sets, order[k])
    ensures Settled(f, sets, Elems(order[..k + 1]))
  {
    TakeOneMore(order, k);
  }

  lemma SettledAll(f: SsaFunction, sets: Sets, order: seq<Addr>)
    requires Settled(f, sets, Elems(order[..|order|])) && forall b :: b in f.blocks ==> b in order
    ensures Settled(f, sets, f.blocks.Keys)
  {
    assert order[..|order|] == order;
  }

  lemma StartDescends(f: SsaFunction, sets: Sets)
    requires sets == map b | b in f.blocks :: if b == f.entry then {b} else f.blocks.Keys
    ensures Descending(f, sets)
  {
    if f.entry in f.blocks {
      forall d | f.OnEveryPath(d, f.entry) ensures d == f.entry {
        assert f.PathFromRoot([f.entry], f.entry);
        assert d in [f.entry];
      }
    }
  }

  // ----------------------------------------------------- what the sets mean

  /** A listed block lies on every path from the entry, in any function. */
  lemma ListedDominates(f: SsaFunction, sets: Sets, b: Addr, d: Addr)
    requires Computed(f, sets) && b in f.blocks && d in sets[b]
    ensures f.Dominates(d, b)
  {
    forall path | f.EntryPath(path, b) ensures d in path {
      assert f.PathFromRoot(path, b);
    }
  }

  /** Every block but the entry has a predecessor inside the function. */
  ghost predicate OneRoot(f: SsaFunction) {
    forall b :: b in f.blocks && f.Root(b) ==> b == f.entry
  }

  lemma OneRootPaths(f: SsaFunction, b: Addr, d: Addr)
    requires OneRoot(f) && f.Dominates(d, b)
    ensures f.OnEveryPath(d, b)
  {
    forall path | f.PathFromRoot(path, b) ensures d in path {
      assert f.EntryPath(path, b);
    }
  }

  /** The sets list exactly the dominators of every block if and only if no
      block but the entry lacks a predecessor. A second root is listed as
      dominated by itself alone, while every block dominates it vacuously. */
  lemma ExactIffOneRoot(f: SsaFunction, sets: Sets)
    requires Computed(f, sets) && f.entry in f.blocks
    ensures OneRoot(f) <==> forall b, d :: b in f.blocks && d in f.blocks ==> (d in sets[b] <==> f.Dominates(d, b))
  {
    if OneRoot(f) {
      forall b, d | b in f.blocks && d in f.blocks ensures d in sets[b] <==> f.Dominates(d, b) {
        if f.Dominates(d, b) {
          OneRootPaths(f, b, d);
        } else if d in sets[b] {
          ListedDominates(f, sets, b, d);
        }
      }
    } else {
      var b :| b in f.blocks && f.Root(b) && b != f.entry;
      if f.entry in sets[b] {
        RootOnlyItself(f, f.entry, b);
      }
      forall path ensures !f.EntryPath(path, b) {
        assert |path| > 1 && f.Chain(path) ==> f.Edge(path[|path| - 2], path[|path| - 1]);
      }
      assert f.Dominates(f.entry, b);
    }
  }
}
