/** Which functions never come back: a bounded fixpoint over the call graph
    (crates/e5r-analysis/src/noreturn.rs). */
module NoReturn {
  import opened Ordered
  import opened Image
  import opened Walk

  type Graph = map<Addr, RawCfg>

  // ---------------------------------------------------------------- one function

  /** This way out of a function does not come back to its caller. */
  ghost predicate DeadEnd(b: Block, calls: set<Addr>, gone: set<Addr>) {
    b.terminator == Terminator.Trap || b.terminator == NoReturnCall ||
    (b.terminator == TailCall && exists c :: c in calls && c in gone)
  }

  /** The function was walked whole and every way out of it is a dead end. */
  ghost predicate Stuck(cfg: RawCfg, gone: set<Addr>) {
    cfg.halt == Complete && !cfg.hasIndirect &&
    (exists b :: b in cfg.blocks && b.successors == []) &&
    forall b :: b in cfg.blocks && b.successors == [] ==> DeadEnd(b, cfg.calls, gone)
  }

  method AnyCallIn(calls: seq<Addr>, gone: set<Addr>) returns (any: bool)
    ensures any <==> exists c :: c in calls && c in gone
  {
    any := false;
    var k := 0;
    while k < |calls| && !any
      invariant k <= |calls|
      invariant any <==> exists c :: c in calls[..k] && c in gone
    {
      TakeOneMore(calls, k);
      any := calls[k] in gone;
      k := k + 1;
    }
    assert !any ==> calls[..k] == calls;
    if any {
      var c :| c in calls[..k] && c in gone;
      assert c in calls;
    }
  }

  method NeverReturns(cfg: RawCfg, gone: set<Addr>) returns (never: bool)
    ensures never <==> Stuck(cfg, gone)
  {
    if cfg.blocks == [] || cfg.hasIndirect || cfg.halt != Complete {
      return false;
    }
    var tailIsDead := AnyCallIn(Sorted(cfg.calls), gone);
    var terminal := 0;
    for k := 0 to |cfg.blocks|
      invariant terminal > 0 <==> exists b :: b in cfg.blocks[..k] && b.successors == []
      invariant terminal >= 0
      invariant forall b :: b in cfg.blocks[..k] && b.successors == [] ==> DeadEnd(b, cfg.calls, gone)
    {
      var b := cfg.blocks[k];
      TakeOneMore(cfg.blocks, k);
      if b.successors == [] {
        terminal := terminal + 1;
        if b.terminator != Terminator.Trap && b.terminator != NoReturnCall && !(b.terminator == TailCall && tailIsDead) {
          assert b in cfg.blocks && !DeadEnd(b, cfg.calls, gone);
          return false;
        }
      }
    }
    assert cfg.blocks[..|cfg.blocks|] == cfg.blocks;
    return terminal > 0;
  }

  // ------------------------------------------------------------------- the rounds

  /** One pass in address order, each function judged by what is known so far. */
  ghost function Pass(graph: Graph, order: seq<Addr>, gone: set<Addr>): set<Addr>
    requires forall a :: a in order ==> a in graph
  {
    if order == [] then gone else
    var last := order[|order| - 1];
    var before := Pass(graph, order[..|order| - 1], gone);
    if Stuck(graph[last], before) then before + {last} else before
  }

  /** A pass over every function. */
  ghost function Round(graph: Graph, gone: set<Addr>): set<Addr> {
    Pass(graph, Sorted(graph.Keys), gone)
  }

  /** At most `n` rounds, stopping when one adds nothing. */
  ghost function Rounds(graph: Graph, gone: set<Addr>, n: nat): set<Addr>
    decreases n, gone
  {
    if n == 0 || Round(graph, gone) == gone then gone else Rounds(graph, Round(graph, gone), n - 1)
  }

  /** The first `k` functions of a pass. */
  ghost function PassTo(graph: Graph, order: seq<Addr>, k: nat, gone: set<Addr>): set<Addr>
    requires (forall a :: a in order ==> a in graph) && k <= |order|
  {
    Pass(graph, order[..k], gone)
  }

  lemma PassStep(graph: Graph, order: seq<Addr>, k: nat, gone: set<Addr>)
    requires (forall a :: a in order ==> a in graph) && k < |order|
    ensures var before := PassTo(graph, order, k, gone);
      PassTo(graph, order, k + 1, gone) == (if Stuck(graph[order[k]], before) then before + {order[k]} else before)
  {
    assert order[..k + 1][..k] == order[..k];
  }

  /** A pass part way through. */
  datatype Partial = Partial(graph: Graph, order: seq<Addr>, k: nat, gone: set<Addr>)

  ghost predicate Gives(p: Partial, next: set<Addr>) {
    match p
    case Partial(graph, order, k, gone) =>
      ((forall a :: a in order ==> a in graph) && k <= |order| && PassTo(graph, order, k, gone) == next)
  }

  lemma GivesStep(graph: Graph, order: seq<Addr>, k: nat, gone: set<Addr>, next: set<Addr>, more: set<Addr>)
    requires k < |order| && Gives(Partial(graph, order, k, gone), next) && order[k] in graph
    requires more == if order[k] !in next && Stuck(graph[order[k]], next) then next + {order[k]} else next
    ensures Gives(Partial(graph, order, k + 1, gone), more)
  {
    PassStep(graph, order, k, gone);
    assert order[k] in next ==> next + {order[k]} == next;
  }

  lemma GivesAll(graph: Graph, gone: set<Addr>, next: set<Addr>)
    requires Gives(Partial(graph, Sorted(graph.Keys), |Sorted(graph.Keys)|, gone), next)
    ensures Round(graph, gone) == next
  {
    assert Sorted(graph.Keys)[..|Sorted(graph.Keys)|] == Sorted(graph.Keys);
  }

  lemma GivesNone(graph: Graph, order: seq<Addr>, gone: set<Addr>)
    requires forall a :: a in order ==> a in graph
    ensures Gives(Partial(graph, order, 0, gone), gone)
  {
    assert order[..0] == [];
  }

  method OnePass(graph: Graph, gone: set<Addr>) returns (next: set<Addr>, added: bool)
    ensures next == Round(graph, gone)
    ensures added <==> next != gone
  {
    var order := Sorted(graph.Keys);
    next, added := gone, false;
    GivesNone(graph, order, gone);
    for k := 0 to |order|
      invariant Gives(Partial(graph, order, k, gone), next)
      invariant gone <= next && (added <==> next != gone)
    {
      var a := order[k];
      assert a in order;
      ghost var was := next;
      if a !in next {
        var never := NeverReturns(graph[a], next);
        if never {
          next := next + {a};
          added := true;
        }
      }
      GivesStep(graph, order, k, gone, was, next);
    }
    GivesAll(graph, gone, next);
  }

  /** So many rounds, from what is known at first. */
  datatype Climb = Climb(graph: Graph, gone: set<Addr>, rounds: nat)

  ghost predicate EndsAt(c: Climb, gone: set<Addr>) {
    match c case Climb(graph, first, rounds) => Rounds(graph, first, rounds) == gone
  }

  lemma RoundsStep(graph: Graph, gone: set<Addr>, k: nat, end: set<Addr>)
    requires k > 0 && EndsAt(Climb(graph, gone, k), end)
    ensures if Round(graph, gone) == gone then gone == end else EndsAt(Climb(graph, Round(graph, gone), k - 1), end)
  {
  }

  ghost function SomeEnd(graph: Graph, gone: set<Addr>, n: nat): (end: set<Addr>)
    ensures EndsAt(Climb(graph, gone, n), end)
  {
    Rounds(graph, gone, n)
  }

  /** The functions that never return: those named so, and those found in at
      most eight passes. */
  method Compute(named: set<Addr>, graph: Graph) returns (gone: set<Addr>)
    ensures EndsAt(Climb(graph, named, 8), gone)
  {
    gone := named;
    var left: nat := 8;
    ghost var end := SomeEnd(graph, named, left);
    while left > 0
      invariant EndsAt(Climb(graph, gone, left), end)
    {
      RoundsStep(graph, gone, left, end);
      var next, added := OnePass(graph, gone);
      left := left - 1;
      if !added {
        return;
      }
      gone := next;
    }
  }

  // --------------------------------------------------------------- what they mean

  /** The rule adds nothing more. */
  ghost predicate Closed(graph: Graph, gone: set<Addr>) {
    forall a :: a in graph && Stuck(graph[a], gone) ==> a in gone
  }

  /** The smallest set that holds the named functions and is closed under the rule. */
  ghost predicate Least(graph: Graph, named: set<Addr>, gone: set<Addr>) {
    named <= gone && Closed(graph, gone) &&
    forall other: set<Addr> :: named <= other && Closed(graph, other) ==> gone <= other
  }

  /** Found by at most `n` steps of the rule, all taken at once. */
  ghost function Level(graph: Graph, named: set<Addr>, n: nat): set<Addr> {
    if n == 0 then named else
    var less := Level(graph, named, n - 1);
    less + set a | a in graph && Stuck(graph[a], less)
  }

  lemma StuckGrows(cfg: RawCfg, few: set<Addr>, many: set<Addr>)
    requires few <= many && Stuck(cfg, few)
    ensures Stuck(cfg, many)
  {
    forall b | b in cfg.blocks && b.successors == [] ensures DeadEnd(b, cfg.calls, many) {
      assert DeadEnd(b, cfg.calls, few);
    }
  }

  lemma {:induction false} PassGrows(graph: Graph, order: seq<Addr>, gone: set<Addr>)
    requires forall a :: a in order ==> a in graph
    ensures gone <= Pass(graph, order, gone)
  {
    if order != [] {
      PassGrows(graph, order[..|order| - 1], gone);
    }
  }

  /** A pass never leaves a closed set it starts inside. */
  lemma {:induction false} PassStays(graph: Graph, order: seq<Addr>, gone: set<Addr>, other: set<Addr>)
    requires (forall a :: a in order ==> a in graph) && gone <= other && Closed(graph, other)
    ensures Pass(graph, order, gone) <= other
  {
    if order != [] {
      var last := order[|order| - 1];
      var before := Pass(graph, order[..|order| - 1], gone);
      PassStays(graph, order[..|order| - 1], gone, other);
      if Stuck(graph[last], before) {
        StuckGrows(graph[last], before, other);
      }
    }
  }

  /** A pass takes in everything the rule gives from where it started. */
  lemma {:induction false} PassTakes(graph: Graph, order: seq<Addr>, gone: set<Addr>, a: Addr)
    requires (forall x :: x in order ==> x in graph) && a in order && Stuck(graph[a], gone)
    ensures a in Pass(graph, order, gone)
  {
    var last, less := order[|order| - 1], order[..|order| - 1];
    if a == last {
      PassGrows(graph, less, gone);
      StuckGrows(graph[a], gone, Pass(graph, less, gone));
    } else {
      PassTakes(graph, less, gone, a);
    }
  }

  lemma {:induction false} RoundsGrow(graph: Graph, gone: set<Addr>, n: nat)
    ensures gone <= Rounds(graph, gone, n)
    decreases n
  {
    if n > 0 {
      PassGrows(graph, Sorted(graph.Keys), gone);
      RoundsGrow(graph, Round(graph, gone), n - 1);
    }
  }

  /** Only functions the rule forces are ever reported, however few the rounds. */
  lemma {:induction false} OnlyForced(graph: Graph, named: set<Addr>, n: nat, other: set<Addr>)
    requires named <= other && Closed(graph, other)
    ensures Rounds(graph, named, n) <= other
    decreases n
  {
    if n > 0 {
      PassStays(graph, Sorted(graph.Keys), named, other);
      OnlyForced(graph, Round(graph, named), n - 1, other);
    }
  }

  /** A set a pass does not change is closed. */
  lemma StillIsClosed(graph: Graph, gone: set<Addr>)
    requires Round(graph, gone) == gone
    ensures Closed(graph, gone)
  {
    forall a | a in graph && Stuck(graph[a], gone) ensures a in gone {
      PassTakes(graph, Sorted(graph.Keys), gone, a);
    }
  }

  lemma {:induction false} LevelForced(graph: Graph, named: set<Addr>, n: nat, other: set<Addr>)
    requires named <= other && Closed(graph, other)
    ensures Level(graph, named, n) <= other
  {
    if n > 0 {
      LevelForced(graph, named, n - 1, other);
      forall a | a in graph && Stuck(graph[a], Level(graph, named, n - 1)) ensures a in other {
        StuckGrows(graph[a], Level(graph, named, n - 1), other);
      }
    }
  }

  /** One level at a time, counted from the front. */
  lemma {:induction false} LevelAhead(graph: Graph, named: set<Addr>, next: set<Addr>, n: nat, after: nat)
    requires Level(graph, named, 1) <= next && after == n + 1
    ensures Within(Level(graph, named, after), Level(graph, next, n))
    decreases n
  {
    if n > 0 {
      LevelAhead(graph, named, next, n - 1, n);
      var few, many := Level(graph, named, n), Level(graph, next, n - 1);
      forall a | a in graph && Stuck(graph[a], few) ensures Stuck(graph[a], many) {
        StuckGrows(graph[a], few, many);
      }
    }
  }

  /** A round takes in the first level. */
  lemma RoundTakesLevel(graph: Graph, named: set<Addr>)
    ensures Level(graph, named, 1) <= Round(graph, named)
  {
    PassGrows(graph, Sorted(graph.Keys), named);
    assert Level(graph, named, 0) == named;
    forall a | a in Level(graph, named, 1) ensures a in Round(graph, named) {
      if a !in named {
        PassTakes(graph, Sorted(graph.Keys), named, a);
      }
    }
  }

  ghost predicate Within(few: set<Addr>, many: set<Addr>) {
    few <= many
  }

  lemma WithinBoth(few: set<Addr>, some: set<Addr>, many: set<Addr>)
    requires Within(few, some) && Within(some, many)
    ensures Within(few, many)
  {
  }

  /** Everything derived in at most `n` steps is found in `n` rounds. */
  lemma {:induction false} ReachesDepth(graph: Graph, named: set<Addr>, n: nat)
    ensures Within(Level(graph, named, n), Rounds(graph, named, n))
    decreases n
  {
    if n > 0 {
      var next := Round(graph, named);
      if next == named {
        StillIsClosed(graph, named);
        LevelForced(graph, named, n, named);
      } else {
        RoundTakesLevel(graph, named);
        LevelAhead(graph, named, next, n - 1, n);
        ReachesDepth(graph, next, n - 1);
        WithinBoth(Level(graph, named, n), Level(graph, next, n - 1), Rounds(graph, next, n - 1));
      }
    }
  }

  lemma OneMoreRound(graph: Graph, gone: set<Addr>, n: nat)
    ensures var next := Round(graph, gone);
      Rounds(graph, gone, n + 1) == if next == gone then gone else Rounds(graph, next, n)
    ensures Round(graph, gone) == gone ==> Rounds(graph, gone, n) == gone
  {
  }

  /** Rounds that would not go on have reached a closed set. */
  lemma {:induction false} SettledIsClosed(graph: Graph, named: set<Addr>, n: nat)
    ensures Rounds(graph, named, n) == Rounds(graph, named, n + 1) ==> Closed(graph, Rounds(graph, named, n))
    decreases n
  {
    var next := Round(graph, named);
    OneMoreRound(graph, named, n);
    if next == named {
      StillIsClosed(graph, named);
    } else if n > 0 {
      OneMoreRound(graph, named, n - 1);
      SettledIsClosed(graph, next, n - 1);
    }
  }
}
