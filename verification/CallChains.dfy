/** How far a bounded number of passes gets: what is found, and what it takes, by
    the chains of calls behind it (crates/e5r-analysis/src/noreturn.rs). */
module CallChains {
  import opened Ordered
  import opened Image
  import opened Walk
  import opened NoReturn

  // ------------------------------------------------------------------ one call is enough

  /** The rule accepts the function once one of its calls does not return. */
  ghost predicate Accepts(graph: Graph, f: Addr) {
    f in graph && Stuck(graph[f], graph[f].calls)
  }

  /** The rule accepts the function whatever it calls. */
  ghost predicate Alone(graph: Graph, f: Addr) {
    f in graph && Stuck(graph[f], {})
  }

  lemma StuckByOne(cfg: RawCfg, gone: set<Addr>)
    ensures Stuck(cfg, gone) <==>
      Stuck(cfg, {}) || (Stuck(cfg, cfg.calls) && exists c :: c in cfg.calls && c in gone)
  {
    if Stuck(cfg, {}) {
      StuckGrows(cfg, {}, gone);
    }
    if Stuck(cfg, cfg.calls) && exists c :: c in cfg.calls && c in gone {
      SameEnds(cfg, cfg.calls, gone);
    }
    if Stuck(cfg, gone) {
      if exists c :: c in cfg.calls && c in gone {
        SameEnds(cfg, gone, cfg.calls);
      } else {
        SameEnds(cfg, gone, {});
      }
    }
  }

  /** Only whether some call does not return matters to the rule. */
  lemma SameEnds(cfg: RawCfg, from: set<Addr>, to: set<Addr>)
    requires Stuck(cfg, from)
    requires (exists c :: c in cfg.calls && c in from) ==> exists c :: c in cfg.calls && c in to
    ensures Stuck(cfg, to)
  {
    forall b | b in cfg.blocks && b.successors == [] ensures DeadEnd(b, cfg.calls, to) {
      assert DeadEnd(b, cfg.calls, from);
    }
  }

  // ------------------------------------------------------------------ one pass

  /** What is known when a pass in address order comes to a function: what was known
      before it, and what it has found below. */
  ghost function KnownAt(gone: set<Addr>, found: set<Addr>, f: Addr): set<Addr> {
    gone + set c | c in found && c < f
  }

  lemma {:induction false} PassWithin(graph: Graph, order: seq<Addr>, gone: set<Addr>)
    requires forall a :: a in order ==> a in graph
    ensures forall x :: x in Pass(graph, order, gone) ==> x in gone || x in order
  {
    if order != [] {
      PassWithin(graph, order[..|order| - 1], gone);
    }
  }

  lemma {:induction false} PassFinds(graph: Graph, order: seq<Addr>, gone: set<Addr>, f: Addr)
    requires (forall a :: a in order ==> a in graph) && Ascending(order) && f in order
    ensures f in Pass(graph, order, gone) <==>
      f in gone || Stuck(graph[f], KnownAt(gone, Pass(graph, order, gone), f))
  {
    var less, last := order[..|order| - 1], order[|order| - 1];
    var before, after := Pass(graph, less, gone), Pass(graph, order, gone);
    PassWithin(graph, less, gone);
    PassGrows(graph, less, gone);
    if f == last {
      assert KnownAt(gone, after, f) == before;
    } else {
      PassFinds(graph, less, gone, f);
      assert KnownAt(gone, after, f) == KnownAt(gone, before, f);
    }
  }

  /** A round finds what needs no call, and what calls something known before or
      something lower that the round itself finds. */
  lemma RoundFinds(graph: Graph, gone: set<Addr>, f: Addr)
    ensures f in Round(graph, gone) <==>
      f in gone || Alone(graph, f) ||
      (Accepts(graph, f) && exists c :: c in graph[f].calls && (c in gone || (c < f && c in Round(graph, gone))))
  {
    var order := Sorted(graph.Keys);
    if f in graph {
      var known := KnownAt(gone, Round(graph, gone), f);
      PassFinds(graph, order, gone, f);
      StuckByOne(graph[f], known);
      assert forall c :: c in known <==> c in gone || (c < f && c in Round(graph, gone));
    } else {
      PassWithin(graph, order, gone);
      PassGrows(graph, order, gone);
    }
  }

  /** One more round is one round on what the others give. */
  lemma {:induction false} RoundsLast(graph: Graph, gone: set<Addr>, n: nat)
    ensures Rounds(graph, gone, n + 1) == Round(graph, Rounds(graph, gone, n))
    decreases n
  {
    OneMoreRound(graph, gone, n);
    if n > 0 && Round(graph, gone) != gone {
      RoundsLast(graph, Round(graph, gone), n - 1);
      OneMoreRound(graph, gone, n - 1);
    }
  }

  // ------------------------------------------------------------------ chains

  /** Calls from accepting functions down to a named one, or to one that needs none. */
  ghost predicate Chain(graph: Graph, named: set<Addr>, path: seq<Addr>) {
    path != [] &&
    if |path| == 1 then path[0] in named || Alone(graph, path[0])
    else Accepts(graph, path[0]) && path[1] in graph[path[0]].calls && Chain(graph, named, path[1..])
  }

  /** How often a chain goes up in memory to a function that was not named. */
  function Ascents(named: set<Addr>, path: seq<Addr>): nat {
    if |path| <= 1 then 0 else
    (if path[0] < path[1] && path[1] !in named then 1 else 0) + Ascents(named, path[1..])
  }

  ghost predicate ChainFrom(graph: Graph, named: set<Addr>, f: Addr, path: seq<Addr>) {
    Chain(graph, named, path) && path[0] == f
  }

  lemma Longer(graph: Graph, named: set<Addr>, f: Addr, path: seq<Addr>) returns (more: seq<Addr>)
    requires Accepts(graph, f) && Chain(graph, named, path) && path[0] in graph[f].calls
    ensures ChainFrom(graph, named, f, more)
    ensures Ascents(named, more) == (if f < path[0] && path[0] !in named then 1 else 0) + Ascents(named, path)
  {
    more := [f] + path;
    assert more[1..] == path;
  }

  lemma {:induction false} ChainFound(graph: Graph, named: set<Addr>, path: seq<Addr>, n: nat)
    requires Chain(graph, named, path) && (path[0] in named || Ascents(named, path) < n)
    ensures path[0] in Rounds(graph, named, n)
    decreases |path|
  {
    RoundsGrow(graph, named, n);
    if path[0] !in named {
      RoundsLast(graph, named, n - 1);
      RoundFinds(graph, Rounds(graph, named, n - 1), path[0]);
      if |path| > 1 {
        LinkFound(graph, named, path, n);
      }
    }
  }

  lemma {:induction false} LinkFound(graph: Graph, named: set<Addr>, path: seq<Addr>, n: nat)
    requires Chain(graph, named, path) && path[0] !in named && Ascents(named, path) < n && |path| > 1
    ensures path[0] == path[1] ==> path[0] in Rounds(graph, named, n)
    ensures path[1] in Rounds(graph, named, n - 1) || (path[1] <= path[0] && path[1] in Rounds(graph, named, n))
    decreases |path|, 0
  {
    var rest := path[1..];
    if rest[0] in named || path[0] < path[1] {
      ChainFound(graph, named, rest, n - 1);
    } else {
      ChainFound(graph, named, rest, n);
    }
  }

  lemma {:induction false} FoundChain(graph: Graph, named: set<Addr>, f: Addr, n: nat) returns (path: seq<Addr>)
    requires f in Rounds(graph, named, n) && f !in named
    ensures ChainFrom(graph, named, f, path) && Ascents(named, path) < n
    decreases n, f
  {
    var less := Rounds(graph, named, n - 1);
    RoundsLast(graph, named, n - 1);
    RoundFinds(graph, less, f);
    if f in less {
      path := FoundChain(graph, named, f, n - 1);
    } else if Alone(graph, f) {
      path := [f];
    } else {
      var c :| c in graph[f].calls && (c in less || (c < f && c in Rounds(graph, named, n)));
      var rest := [c];
      if c !in named {
        rest := FoundChain(graph, named, c, if c in less then n - 1 else n);
      }
      path := Longer(graph, named, f, rest);
    }
  }

  /** Exactly what so many rounds find: the named functions, and those with a chain
      of calls down that goes up in memory fewer times than there are rounds. */
  lemma FoundIff(graph: Graph, named: set<Addr>, f: Addr, n: nat)
    ensures f in Rounds(graph, named, n) <==>
      f in named || exists path :: ChainFrom(graph, named, f, path) && Ascents(named, path) < n
  {
    RoundsGrow(graph, named, n);
    if f in Rounds(graph, named, n) && f !in named {
      var path := FoundChain(graph, named, f, n);
    }
    if path :| ChainFrom(graph, named, f, path) && Ascents(named, path) < n {
      ChainFound(graph, named, path, n);
    }
  }

  // ------------------------------------------------------------------ the least set

  ghost predicate Forced(graph: Graph, named: set<Addr>, f: Addr) {
    exists path :: ChainFrom(graph, named, f, path)
  }

  lemma {:induction false} ChainForced(graph: Graph, named: set<Addr>, path: seq<Addr>, other: set<Addr>)
    requires Chain(graph, named, path) && named <= other && NoReturn.Closed(graph, other)
    ensures path[0] in other
  {
    if |path| > 1 {
      ChainForced(graph, named, path[1..], other);
    }
    if path[0] in graph {
      StuckByOne(graph[path[0]], other);
    }
  }

  ghost function AllForced(graph: Graph, named: set<Addr>): set<Addr> {
    named + set f | f in graph && Forced(graph, named, f)
  }

  lemma ForcedClosed(graph: Graph, named: set<Addr>)
    ensures NoReturn.Closed(graph, AllForced(graph, named))
  {
    forall a | a in graph && Stuck(graph[a], AllForced(graph, named)) ensures Forced(graph, named, a) {
      StuckByOne(graph[a], AllForced(graph, named));
      if Alone(graph, a) {
        assert ChainFrom(graph, named, a, [a]);
      } else {
        var c :| c in graph[a].calls && c in AllForced(graph, named);
        var rest := [c];
        if c !in named {
          rest :| ChainFrom(graph, named, c, rest);
        }
        var path := Longer(graph, named, a, rest);
      }
    }
  }

  /** A function is in every set that holds the named ones and is closed under the
      rule exactly when a chain of calls leads down from it. */
  lemma ForcedIff(graph: Graph, named: set<Addr>, f: Addr)
    ensures Forced(graph, named, f) <==> forall other: set<Addr> :: named <= other && NoReturn.Closed(graph, other) ==> f in other
  {
    if path :| ChainFrom(graph, named, f, path) {
      forall other: set<Addr> | named <= other && NoReturn.Closed(graph, other) ensures f in other {
        ChainForced(graph, named, path, other);
      }
    }
    if forall other: set<Addr> :: named <= other && NoReturn.Closed(graph, other) ==> f in other {
      ForcedClosed(graph, named);
      assert f in AllForced(graph, named);
      assert f in named ==> ChainFrom(graph, named, f, [f]);
    }
  }

  /** The rounds give the least set exactly when every function that is forced was
      named or has a chain that goes up in memory fewer times than there are rounds. */
  lemma LeastIff(graph: Graph, named: set<Addr>, n: nat)
    ensures Least(graph, named, Rounds(graph, named, n)) <==>
      forall f :: Forced(graph, named, f) ==>
        f in named || exists path :: ChainFrom(graph, named, f, path) && Ascents(named, path) < n
  {
    var gone := Rounds(graph, named, n);
    RoundsGrow(graph, named, n);
    forall f ensures f in gone <==>
      f in named || exists path :: ChainFrom(graph, named, f, path) && Ascents(named, path) < n {
      FoundIff(graph, named, f, n);
    }
    if Least(graph, named, gone) {
      forall f | Forced(graph, named, f) ensures f in gone {
        ForcedIff(graph, named, f);
      }
    }
    if forall f :: Forced(graph, named, f) ==> f in gone {
      FoundAllLeast(graph, named, n);
    }
  }

  lemma FoundAllLeast(graph: Graph, named: set<Addr>, n: nat)
    requires forall f :: Forced(graph, named, f) ==> f in Rounds(graph, named, n)
    ensures Least(graph, named, Rounds(graph, named, n))
  {
    var gone := Rounds(graph, named, n);
    RoundsGrow(graph, named, n);
    ForcedClosed(graph, named);
    OnlyForced(graph, named, n, AllForced(graph, named));
    assert gone == AllForced(graph, named);
    forall other: set<Addr> | named <= other && NoReturn.Closed(graph, other) ensures gone <= other {
      OnlyForced(graph, named, n, other);
    }
  }

  // ------------------------------------------------------------------ where eight is not enough

  /** Function `i` does nothing but tail-call function `i + 1`. */
  function TailCaller(i: Addr): RawCfg {
    RawCfg(i, [Block(Range(i, i + 1), [], 1, false, TailCall)], {i + 1}, false, Complete)
  }

  /** An import: one branch through a table the walk does not follow. */
  function Stub(i: Addr): RawCfg {
    RawCfg(i, [Block(Range(i, i + 1), [], 1, true, Unresolved)], {}, true, Complete)
  }

  /** Each function tail-calls the next one up in memory; the top is an import. */
  ghost function Ladder(n: nat): Graph {
    map i | i in Below(n + 1) :: if i < n then TailCaller(i) else Stub(i)
  }

  lemma TailCallerStuck(i: Addr, gone: set<Addr>)
    ensures Stuck(TailCaller(i), gone) <==> i + 1 in gone
  {
    var b := Block(Range(i, i + 1), [], 1, false, TailCall);
    assert b in TailCaller(i).blocks;
    assert forall x :: x in TailCaller(i).blocks ==> x == b;
  }

  /** Only one chain leads up from a rung, and it goes up all the way. */
  lemma {:induction false} LadderAscents(n: nat, path: seq<Addr>)
    requires Chain(Ladder(n), {n}, path) && path[0] <= n
    ensures path[0] == n ==> |path| == 1
    ensures path[0] < n ==> Ascents({n}, path) == n - path[0] - 1
    decreases |path|
  {
    if path[0] < n {
      TailCallerStuck(path[0], {});
      LadderAscents(n, path[1..]);
    }
  }

  lemma {:induction false} LadderChain(n: nat, i: nat) returns (path: seq<Addr>)
    requires i <= n
    ensures ChainFrom(Ladder(n), {n}, i, path)
    decreases n - i
  {
    if i == n {
      path := [n];
    } else {
      var rest := LadderChain(n, i + 1);
      TailCallerStuck(i, {i + 1});
      path := Longer(Ladder(n), {n}, i, rest);
    }
  }

  /** Eight rounds are not always enough: of a ladder of nine or more tail calls up
      to an import that never returns, exactly the top eight are found. */
  lemma LadderMissed(n: nat, i: nat)
    requires n >= 9 && i <= n
    ensures i in Rounds(Ladder(n), {n}, 8) <==> i >= n - 8
    ensures !Least(Ladder(n), {n}, Rounds(Ladder(n), {n}, 8))
  {
    FoundOnLadder(n, i);
    FoundOnLadder(n, 0);
    var path := LadderChain(n, 0);
    ForcedIff(Ladder(n), {n}, 0);
  }

  lemma FoundOnLadder(n: nat, i: nat)
    requires i <= n
    ensures i in Rounds(Ladder(n), {n}, 8) <==> i >= n - 8
  {
    FoundIff(Ladder(n), {n}, i, 8);
    var path := LadderChain(n, i);
    forall p | ChainFrom(Ladder(n), {n}, i, p) ensures i < n ==> Ascents({n}, p) == n - i - 1 {
      LadderAscents(n, p);
    }
  }
}
