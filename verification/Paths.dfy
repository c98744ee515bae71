/** Paths through a function, and what dominance says about the last time a
    block is visited (crates/e5r-api/src/dataflow.rs). */
module Paths {
  import opened Ordered
  import opened Ssa

  lemma ChainJoin(f: SsaFunction, a: seq<Addr>, b: seq<Addr>)
    requires f.Chain(a) && f.Chain(b) && f.Edge(a[|a| - 1], b[0])
    ensures f.Chain(a + b)
  {
  }

  lemma EntryPrefix(f: SsaFunction, path: seq<Addr>, b: Addr, i: nat)
    requires f.EntryPath(path, b) && i < |path|
    ensures f.EntryPath(path[..i + 1], path[i])
  {
  }

  lemma ChainSuffix(f: SsaFunction, path: seq<Addr>, i: nat)
    requires f.Chain(path) && i < |path|
    ensures f.Chain(path[i..])
  {
    if i > 0 {
      assert f.Edge(path[i - 1], path[i]);
    }
  }

  ghost predicate FirstAt(path: seq<Addr>, x: Addr, i: nat) {
    i < |path| && path[i] == x && forall j :: 0 <= j < i ==> path[j] != x
  }

  ghost predicate LastAt(path: seq<Addr>, x: Addr, i: nat) {
    i < |path| && path[i] == x && forall j :: i < j < |path| ==> path[j] != x
  }

  lemma {:induction false} FirstExists(path: seq<Addr>, x: Addr) returns (i: nat)
    requires x in path
    ensures FirstAt(path, x, i)
  {
    i := 0;
    while path[i] != x
      invariant i < |path| && forall j :: 0 <= j < i ==> path[j] != x
      invariant x in path[i..]
      decreases |path| - i
    {
      i := i + 1;
    }
  }

  lemma {:induction false} LastExists(path: seq<Addr>, x: Addr) returns (i: nat)
    requires x in path
    ensures LastAt(path, x, i)
  {
    i := |path| - 1;
    while path[i] != x
      invariant i < |path| && forall j :: i < j < |path| ==> path[j] != x
      invariant x in path[..i + 1]
      decreases i
    {
      i := i - 1;
    }
  }

  /** Go straight from an earlier visit to a block to what follows a later one. */
  lemma Shortcut(f: SsaFunction, path: seq<Addr>, b: Addr, i: nat, j: nat)
    requires f.EntryPath(path, b) && i <= j < |path|
    ensures path[i] == path[j] ==> f.EntryPath(path[..i + 1] + path[j + 1..], b)
  {
    EntryPrefix(f, path, b, i);
    if j + 1 < |path| {
      ChainSuffix(f, path, j + 1);
      assert f.Edge(path[j], path[j + 1]);
      if path[i] == path[j] {
        ChainJoin(f, path[..i + 1], path[j + 1..]);
      }
    } else {
      assert path[..i + 1] + path[j + 1..] == path[..i + 1];
    }
  }

  lemma DominatesTransitive(f: SsaFunction, a: Addr, b: Addr, c: Addr)
    requires f.Dominates(a, b) && f.Dominates(b, c)
    ensures f.Dominates(a, c)
  {
    forall path | f.EntryPath(path, c) ensures a in path {
      var i := FirstExists(path, b);
      EntryPrefix(f, path, c, i);
      assert a in path[..i + 1];
    }
  }

  /** A block that dominates a dominator of the path's end is not visited again
      after the last visit to that dominator, so nothing it defined is redefined. */
  lemma NotAgain(f: SsaFunction, path: seq<Addr>, site: Addr, b: Addr, d: Addr, i: nat)
    requires f.EntryPath(path, site) && f.Dominates(b, site) && f.Dominates(d, b) && d != b && LastAt(path, b, i)
    ensures forall j :: i < j < |path| ==> path[j] != d
  {
    EntryPrefix(f, path, site, i);
    assert d in path[..i + 1];
    var first := FirstExists(path, d);
    assert first <= i by {
      var k :| 0 <= k <= i && path[..i + 1][k] == d;
    }
    forall k | 0 <= k <= first ensures path[k] != b {
      var prefix := path[..k + 1];
      EntryPrefix(f, path, site, k);
      assert d in prefix ==> k == first;
    }
    forall j | i < j < |path| ensures path[j] != d {
      var short := path[..first + 1] + path[j + 1..];
      Shortcut(f, path, site, first, j);
      assert b !in short;
    }
  }

  // ------------------------------------------------------ which way it went

  /** On every path to the site, the last visit to `b` leaves by `chosen`. */
  ghost predicate LastLeavesBy(f: SsaFunction, b: Addr, chosen: Addr, site: Addr) {
    forall path: seq<Addr>, i: nat :: f.EntryPath(path, site) && LastAt(path, b, i) && i < |path| - 1 ==> path[i + 1] == chosen
  }

  /** A way from one block to the site that does not come back through `b`. */
  ghost predicate Avoids(f: SsaFunction, from: Addr, site: Addr, b: Addr, path: seq<Addr>) {
    f.Chain(path) && path[0] == from && path[|path| - 1] == site && b !in path
  }

  /** A branch block's last visit always leaves by the chosen successor exactly
      when no other successor reaches the site without coming back first. */
  lemma LastEdgeExact(f: SsaFunction, b: Addr, chosen: Addr, site: Addr, to: seq<Addr>)
    requires f.EntryPath(to, b) && b != site
    ensures LastLeavesBy(f, b, chosen, site) <==>
      forall other, path: seq<Addr> :: f.Edge(b, other) && other != chosen ==> !Avoids(f, other, site, b, path)
  {
    if LastLeavesBy(f, b, chosen, site) {
      forall other, path: seq<Addr> | f.Edge(b, other) && other != chosen ensures !Avoids(f, other, site, b, path) {
        if Avoids(f, other, site, b, path) {
          ChainJoin(f, to, path);
          assert f.EntryPath(to + path, site) && LastAt(to + path, b, |to| - 1);
        }
      }
    } else {
      var path: seq<Addr>, i: nat :| f.EntryPath(path, site) && LastAt(path, b, i) && i < |path| - 1 && path[i + 1] != chosen;
      ChainSuffix(f, path, i + 1);
      assert f.Edge(path[i], path[i + 1]);
      assert Avoids(f, path[i + 1], site, b, path[i + 1..]);
    }
  }

  /** When the chosen successor dominates the site, is not the entry, and has
      no predecessor but the branch, the last visit leaves by it. */
  lemma OnlyPredecessorLeaves(f: SsaFunction, b: Addr, chosen: Addr, site: Addr)
    requires f.Dominates(chosen, site) && chosen != f.entry
    requires forall p :: f.Edge(p, chosen) ==> p == b
    ensures LastLeavesBy(f, b, chosen, site)
  {
    forall path: seq<Addr>, i: nat | f.EntryPath(path, site) && LastAt(path, b, i) && i < |path| - 1 ensures path[i + 1] == chosen {
      if path[i + 1] != chosen {
        var first := FirstExists(path, b);
        Shortcut(f, path, site, first, i);
        var short := path[..first + 1] + path[i + 1..];
        assert chosen in short;
        forall j | 0 <= j < |short| ensures short[j] != chosen {
          if j != first + 1 {
            NotEntered(f, path, b, chosen, first, i, if j <= first then j else j - first + i);
          }
        }
      }
    }
  }

  /** Before the first visit to its only predecessor, and after the last, a
      block is not entered. */
  lemma NotEntered(f: SsaFunction, path: seq<Addr>, b: Addr, chosen: Addr, first: nat, last: nat, j: nat)
    requires f.Chain(path) && path[0] == f.entry && chosen != f.entry && j < |path|
    requires FirstAt(path, b, first) && LastAt(path, b, last)
    requires forall p :: f.Edge(p, chosen) ==> p == b
    requires j <= first || j > last + 1
    ensures path[j] != chosen
  {
    assert j > 0 ==> f.Edge(path[j - 1], path[j]);
  }
}
