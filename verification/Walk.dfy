/** Recursive descent over one function (crates/e5r-analysis/src/cfg.rs). */
module Walk {
  import opened Ordered
  import opened Image

  datatype Caps = Caps(functionInsns: nat, functionBlocks: nat)

  datatype Block = Block(range: Range, successors: seq<Addr>, insns: nat, unresolved: bool, terminator: Terminator)

  /** How one run of instructions ended, before any later branch splits it. */
  datatype Ending = Ending(end: Addr, succs: seq<Addr>, count: nat, unresolved: bool, term: Terminator)

  datatype RawCfg = RawCfg(entry: Addr, blocks: seq<Block>, calls: set<Addr>, hasIndirect: bool, halt: Halt)

  // ------------------------------------------------------------------ runs

  /** One past the last instruction of a run. */
  ghost function EndOf(start: Addr, body: seq<Insn>): Addr {
    if body == [] then start else body[|body| - 1].End()
  }

  /** `body` is what decoding straight on from `start` gives, and every
      instruction but the last falls through. */
  ghost predicate Chain(job: Job, start: Addr, body: seq<Insn>) {
    && (body != [] ==> body[0].addr == start)
    && (forall i :: 0 <= i < |body| ==> job.Decodable(body[i].addr) && body[i] == job.p.code[body[i].addr])
    && (forall i :: 0 <= i < |body| - 1 ==> job.Falls(body[i]))
    && (forall i :: 1 <= i < |body| ==> body[i].addr == body[i - 1].End())
  }

  /** The run reached a start another run already has. */
  ghost predicate Joined(job: Job, start: Addr, body: seq<Insn>, e: Ending, starts: set<Addr>) {
    body != [] && job.Falls(body[|body| - 1]) && e.end in starts &&
    e.succs == [e.end] && !e.unresolved && e.term == Terminator.Flow
  }

  /** The run ended at an instruction that does not fall through. */
  ghost predicate Exited(job: Job, start: Addr, body: seq<Insn>, e: Ending) {
    body != [] &&
    var last := body[|body| - 1];
    !job.Falls(last) && Ascending(e.succs) && Elems(e.succs) == Elems(job.Exits(last)) &&
    e.unresolved == job.Unfollowed(last) && e.term == job.EndsAs(last)
  }

  /** The run was cut off: a cap, bytes that do not decode, or known data. */
  ghost predicate Stopped(job: Job, start: Addr, body: seq<Insn>, e: Ending, halt: Halt) {
    (body != [] ==> job.Falls(body[|body| - 1])) &&
    halt != Complete && e.succs == [] && e.unresolved && e.term == Unresolved
  }

  ghost predicate RunOk(job: Job, start: Addr, body: seq<Insn>, e: Ending, starts: set<Addr>, halt: Halt) {
    Chain(job, start, body) && e.end == EndOf(start, body) && e.count == |body| &&
    (Joined(job, start, body, e, starts) || Exited(job, start, body, e) || Stopped(job, start, body, e, halt))
  }

  /** The call targets a run contributes. */
  ghost function CallsIn(job: Job, body: seq<Insn>): set<Addr> {
    if body == [] then {} else CallsIn(job, body[..|body| - 1]) + job.CallsOf(body[|body| - 1])
  }

  /** The run ends at an indirect branch recovery gave up on. */
  ghost predicate EndsUnfollowed(job: Job, body: seq<Insn>) {
    body != [] && job.Unfollowed(body[|body| - 1])
  }

  /** Decoding one more instruction extends a run that has only fallen through. */
  lemma ChainExtend(job: Job, start: Addr, body: seq<Insn>, at: Addr)
    requires job.p.Valid() && Chain(job, start, body) && at == EndOf(start, body) && job.Decodable(at)
    requires body != [] ==> job.Falls(body[|body| - 1])
    ensures Chain(job, start, body + [job.p.code[at]])
    ensures EndOf(start, body + [job.p.code[at]]) == job.p.code[at].End()
    ensures CallsIn(job, body + [job.p.code[at]]) == CallsIn(job, body) + job.CallsOf(job.p.code[at])
  {
    var longer := body + [job.p.code[at]];
    assert longer[..|longer| - 1] == body;
    forall i | 0 <= i < |longer|
      ensures job.Decodable(longer[i].addr) && longer[i] == job.p.code[longer[i].addr]
      ensures i < |body| ==> job.Falls(longer[i])
      ensures i >= 1 ==> longer[i].addr == longer[i - 1].End()
    {
      if i < |body| {
        assert longer[i] == body[i];
      }
    }
  }

  /** The run was cut off where it would have gone on: out of instructions, or
      nothing to decode. */
  ghost predicate CutOff(job: Job, body: seq<Insn>, e: Ending) {
    e.succs == [] && e.unresolved && (body != [] ==> job.Falls(body[|body| - 1]))
  }

  /** The run was cut short where more decodes: only the instruction cap does that. */
  ghost predicate Short(job: Job, body: seq<Insn>, e: Ending) {
    CutOff(job, body, e) && job.Decodable(e.end)
  }

  /** A run that fell through to a start another run has is joined to it. */
  lemma RunJoins(job: Job, start: Addr, body: seq<Insn>, at: Addr, starts: set<Addr>, halt: Halt)
    requires Chain(job, start, body) && body != [] && job.Falls(body[|body| - 1]) && at == EndOf(start, body) && at in starts
    ensures RunOk(job, start, body, Ending(at, [at], |body|, false, Terminator.Flow), starts, halt)
    ensures !EndsUnfollowed(job, body) && !CutOff(job, body, Ending(at, [at], |body|, false, Terminator.Flow))
  {
  }

  /** A run cut off where it had only fallen through. */
  lemma RunStops(job: Job, start: Addr, body: seq<Insn>, at: Addr, starts: set<Addr>, halt: Halt)
    requires Chain(job, start, body) && (body != [] ==> job.Falls(body[|body| - 1])) && at == EndOf(start, body)
    requires halt != Complete
    ensures RunOk(job, start, body, Ending(at, [], |body|, true, Unresolved), starts, halt)
    ensures !EndsUnfollowed(job, body) && CutOff(job, body, Ending(at, [], |body|, true, Unresolved))
  {
  }

  /** A run that ended at an instruction that does not fall through. */
  lemma RunExits(job: Job, start: Addr, body: seq<Insn>, starts: set<Addr>, halt: Halt, e: Ending)
    requires Chain(job, start, body) && body != [] && !job.Falls(body[|body| - 1])
    requires var last := body[|body| - 1];
      e == Ending(last.End(), SortDedup(job.Exits(last)), |body|, job.Unfollowed(last), job.EndsAs(last))
    ensures RunOk(job, start, body, e, starts, halt) && !CutOff(job, body, e)
  {
    var last := body[|body| - 1];
    assert Elems(SortDedup(job.Exits(last))) == Elems(job.Exits(last));
  }

  /** A run that has only fallen through so far, past no other start. */
  ghost predicate Running(job: Job, start: Addr, body: seq<Insn>, at: Addr, starts: set<Addr>, calls: set<Addr>) {
    match job
    case Job(_, _, _, _, _) =>
      (Gathered(job, start, body, starts, calls) && at == EndOf(start, body) &&
       (body != [] ==> job.Falls(body[|body| - 1]) && start < at))
  }

  /** A run past no other start, and the call targets it contributes. */
  ghost predicate Gathered(job: Job, start: Addr, body: seq<Insn>, starts: set<Addr>, calls: set<Addr>) {
    match job
    case Job(_, _, _, _, _) =>
      (Chain(job, start, body) && calls == CallsIn(job, body) && forall i :: 1 <= i < |body| ==> body[i].addr !in starts)
  }

  /** Decoding one more instruction. */
  lemma RunGoes(job: Job, start: Addr, body: seq<Insn>, at: Addr, starts: set<Addr>, calls: set<Addr>)
    requires job.p.Valid() && Running(job, start, body, at, starts, calls) && job.Decodable(at) && (at != start ==> at !in starts)
    ensures var insn := job.p.code[at];
      Gathered(job, start, body + [insn], starts, calls + job.CallsOf(insn)) && Chain(job, start, body + [insn]) &&
      (job.Falls(insn) ==> Running(job, start, body + [insn], insn.End(), starts, calls + job.CallsOf(insn)))
  {
    ChainExtend(job, start, body, at);
  }

  lemma RunStarts(job: Job, start: Addr, starts: set<Addr>)
    ensures Running(job, start, [], start, starts, {})
  {
  }

  /** Decode from `start` until the run ends. */
  method Run(job: Job, start: Addr, starts: set<Addr>, budget: nat, halted: Halt)
    returns (body: seq<Insn>, e: Ending, calls: set<Addr>, indirect: bool, left: nat, halt: Halt)
    requires job.p.Valid()
    requires start in starts
    ensures RunOk(job, start, body, e, starts, halt)
    ensures Ascending(e.succs)
    ensures forall i :: 1 <= i < |body| ==> body[i].addr !in starts
    ensures calls == CallsIn(job, body)
    ensures indirect == EndsUnfollowed(job, body)
    ensures left + |body| == budget
    ensures halt == if CutOff(job, body, e) then (if left == 0 then InstructionCap else Undecodable) else halted
    ensures budget > 0 && job.Decodable(start) ==> body != []
    ensures Short(job, body, e) ==> left == 0
  {
    var at, end, count := start, start, 0;
    body, calls, indirect, left, halt := [], {}, false, budget, halted;
    RunStarts(job, start, starts);
    while true
      invariant Running(job, start, body, at, starts, calls) && at == end && count == |body|
      invariant !indirect && halt == halted
      invariant left + |body| == budget
      decreases left
    {
      if left == 0 {
        halt := InstructionCap;
        RunStops(job, start, body, end, starts, halt);
        e := Ending(end, [], count, true, Unresolved);
        return;
      }
      if at != start && at in starts {
        RunJoins(job, start, body, at, starts, halt);
        e := Ending(end, [at], count, false, Terminator.Flow);
        return;
      }
      if at in job.data || at !in job.p.code {
        halt := Undecodable;
        RunStops(job, start, body, end, starts, halt);
        e := Ending(end, [], count, true, Unresolved);
        return;
      }
      var insn := job.p.code[at];
      RunGoes(job, start, body, at, starts, calls);
      left := left - 1;
      count := count + 1;
      body := body + [insn];
      end := insn.End();
      calls := calls + job.CallsOf(insn);
      if job.Falls(insn) {
        at := end;
      } else {
        indirect := job.Unfollowed(insn);
        e := Ending(end, SortDedup(job.Exits(insn)), count, job.Unfollowed(insn), job.EndsAs(insn));
        RunExits(job, start, body, starts, halt, e);
        return;
      }
    }
  }

  // ------------------------------------------------------------------ walk

  /** Each recorded ending is what decoding from its start gives. */
  ghost predicate RunsOk(job: Job, ends: map<Addr, Ending>, bodies: map<Addr, seq<Insn>>, halt: Halt) {
    bodies.Keys == ends.Keys &&
    forall s :: s in ends ==> RunOk(job, s, bodies[s], ends[s], ends.Keys, halt) && Ascending(ends[s].succs)
  }

  /** Nothing is walked or queued that control cannot reach, and the entry is. */
  ghost predicate Rooted(job: Job, starts: set<Addr>, work: set<Addr>) {
    (forall s :: s in starts || s in work ==> job.Landing(s)) && (job.entry in starts || job.entry in work)
  }

  /** Every executable address a run leaves to is a start or is queued. */
  ghost predicate Closed(job: Job, ends: map<Addr, Ending>, work: set<Addr>) {
    forall s, t :: s in ends && t in ends[s].succs && t in job.p.exec ==> t in ends || t in work
  }

  /** Every instruction of a run is reachable when its start is, and so is
      every executable address the run can leave to. */
  lemma {:induction false} RunReachable(job: Job, start: Addr, body: seq<Insn>, i: nat)
    requires job.p.Valid() && Chain(job, start, body) && job.Reachable(start) && i < |body|
    ensures job.Reachable(body[i].addr)
  {
    if i > 0 {
      RunReachable(job, start, body, i - 1);
      assert job.Falls(body[i - 1]);
      assert job.Step(body[i - 1].addr, body[i].addr);
      StepReachable(job, body[i - 1].addr, body[i].addr);
    }
  }

  /** An executable address a run leaves to is a place a block may start. */
  lemma SuccsLand(job: Job, start: Addr, body: seq<Insn>, e: Ending, starts: set<Addr>, halt: Halt, t: Addr)
    requires job.p.Valid() && RunOk(job, start, body, e, starts, halt) && job.Reachable(start)
    requires t in e.succs && t in job.p.exec
    requires forall x :: x in starts ==> job.Landing(x)
    ensures job.Landing(t)
  {
    var last := body[|body| - 1];
    RunReachable(job, start, body, |body| - 1);
    assert t in Elems(e.succs);
    if !job.Falls(last) {
      assert job.Step(last.addr, t);
      StepReachable(job, last.addr, t);
      assert job.Lands(last.addr, t);
    }
  }

  lemma RunOkGrows(job: Job, s: Addr, body: seq<Insn>, e: Ending, few: set<Addr>, many: set<Addr>, was: Halt, halt: Halt)
    requires RunOk(job, s, body, e, few, was) && few <= many
    requires was != Complete ==> halt != Complete
    ensures RunOk(job, s, body, e, many, halt)
  {
    assert Joined(job, s, body, e, few) ==> Joined(job, s, body, e, many);
    assert Stopped(job, s, body, e, was) ==> Stopped(job, s, body, e, halt);
  }

  /** Recording one more run keeps the recorded endings right. */
  lemma RunsOkStep(job: Job, ends: map<Addr, Ending>, bodies: map<Addr, seq<Insn>>, was: Halt,
                   start: Addr, body: seq<Insn>, e: Ending, halt: Halt)
    requires RunsOk(job, ends, bodies, was) && start !in ends
    requires RunOk(job, start, body, e, ends.Keys + {start}, halt) && Ascending(e.succs)
    requires was != Complete ==> halt != Complete
    ensures RunsOk(job, ends[start := e], bodies[start := body], halt)
  {
    var ends', bodies' := ends[start := e], bodies[start := body];
    assert ends'.Keys == ends.Keys + {start};
    forall s | s in ends'
      ensures RunOk(job, s, bodies'[s], ends'[s], ends'.Keys, halt) && Ascending(ends'[s].succs)
    {
      if s != start {
        RunOkGrows(job, s, bodies[s], ends[s], ends.Keys, ends'.Keys, was, halt);
      }
    }
  }

  /** Total instructions decoded over all runs. */
  ghost function Spent(bodies: map<Addr, seq<Insn>>): nat
    decreases |bodies|
  {
    if bodies.Keys == {} then 0 else
    var s := Min(bodies.Keys);
    |bodies[s]| + Spent(bodies - {s})
  }

  /** The order runs are added up in does not matter. */
  lemma {:induction false} SpentAny(bodies: map<Addr, seq<Insn>>, s: Addr)
    requires s in bodies
    ensures Spent(bodies) == |bodies[s]| + Spent(bodies - {s})
    decreases |bodies|
  {
    var m := Min(bodies.Keys);
    if m != s {
      SpentAny(bodies - {m}, s);
      assert (bodies - {m}) - {s} == (bodies - {s}) - {m};
      assert Min((bodies - {s}).Keys) == m;
    }
  }

  lemma SpentAdd(bodies: map<Addr, seq<Insn>>, s: Addr, body: seq<Insn>)
    requires s !in bodies
    ensures Spent(bodies[s := body]) == Spent(bodies) + |body|
  {
    SpentAny(bodies[s := body], s);
    assert bodies[s := body] - {s} == bodies;
  }

  /** The call targets, and whether anything indirect was left unfollowed. */
  ghost predicate Summed(job: Job, bodies: map<Addr, seq<Insn>>, calls: set<Addr>, indirect: bool) {
    (forall t :: t in calls <==> exists s :: s in bodies && t in CallsIn(job, bodies[s])) &&
    (indirect <==> exists s :: s in bodies && EndsUnfollowed(job, bodies[s]))
  }

  lemma SummedStep(job: Job, bodies: map<Addr, seq<Insn>>, calls: set<Addr>, indirect: bool, s: Addr, body: seq<Insn>)
    requires Summed(job, bodies, calls, indirect) && s !in bodies
    ensures Summed(job, bodies[s := body], calls + CallsIn(job, body), indirect || EndsUnfollowed(job, body))
  {
    var more := bodies[s := body];
    assert forall x :: x in bodies ==> x in more && more[x] == bodies[x];
    assert s in more && more[s] == body;
    forall t ensures t in calls + CallsIn(job, body) <==> exists x :: x in more && t in CallsIn(job, more[x]) {
      if t in calls {
        var x :| x in bodies && t in CallsIn(job, bodies[x]);
        assert x in more && t in CallsIn(job, more[x]);
      }
    }
    if indirect {
      var x :| x in bodies && EndsUnfollowed(job, bodies[x]);
      assert x in more && EndsUnfollowed(job, more[x]);
    }
  }

  lemma RunsOkHalted(job: Job, ends: map<Addr, Ending>, bodies: map<Addr, seq<Insn>>, was: Halt, halt: Halt)
    requires RunsOk(job, ends, bodies, was) && halt != Complete
    ensures RunsOk(job, ends, bodies, halt)
  {
    forall s | s in ends ensures RunOk(job, s, bodies[s], ends[s], ends.Keys, halt) {
      RunOkGrows(job, s, bodies[s], ends[s], ends.Keys, ends.Keys, was, halt);
    }
  }

  /** Queueing a run's executable successors keeps the walk rooted and closed. */
  lemma FrontierStep(job: Job, ends: map<Addr, Ending>, had: set<Addr>, start: Addr, body: seq<Insn>, e: Ending,
                     halt: Halt, work: set<Addr>)
    requires job.p.Valid()
    requires Rooted(job, ends.Keys, had) && Closed(job, ends, had) && start in had
    requires RunOk(job, start, body, e, ends.Keys + {start}, halt)
    requires had - {start} <= work
    requires forall t :: t in work && t !in had ==> t in e.succs && t in job.p.exec
    requires forall t :: t in e.succs && t in job.p.exec ==> t in work || t in ends || t == start
    ensures Rooted(job, ends.Keys + {start}, work)
    ensures Closed(job, ends[start := e], work)
  {
    forall t | t in work ensures job.Landing(t) {
      if t !in had {
        SuccsLand(job, start, body, e, ends.Keys + {start}, halt, t);
      }
    }
  }

  /** A start walked already needs no place in the queue. */
  lemma FrontierSkip(job: Job, ends: map<Addr, Ending>, had: set<Addr>, start: Addr, work: set<Addr>)
    requires Rooted(job, ends.Keys, had) && Closed(job, ends, had)
    requires start in ends && had == work + {start}
    ensures Rooted(job, ends.Keys, work) && Closed(job, ends, work)
  {
  }

  /** The successors a run adds to the queue. */
  ghost function Fresh(job: Job, succs: seq<Addr>, seen: set<Addr>): set<Addr> {
    set t | t in succs && t !in seen && t in job.p.exec
  }

  /** The walk's loop invariant: where it has been and where it still has to go. */
  ghost predicate Explored(job: Job, work: set<Addr>, ends: map<Addr, Ending>, bodies: map<Addr, seq<Insn>>, halt: Halt) {
    RunsOk(job, ends, bodies, halt) && Rooted(job, ends.Keys, work) && Closed(job, ends, work)
  }

  lemma ExploreStep(job: Job, had: set<Addr>, rest: set<Addr>, ends: map<Addr, Ending>, bodies: map<Addr, seq<Insn>>,
                    was: Halt, halt: Halt, start: Addr, body: seq<Insn>, e: Ending)
    requires job.p.Valid()
    requires Explored(job, had, ends, bodies, was)
    requires start in had && start !in ends && had - {start} <= rest <= had
    requires RunOk(job, start, body, e, ends.Keys + {start}, halt) && Ascending(e.succs)
    requires was != Complete ==> halt != Complete
    ensures Explored(job, rest + Fresh(job, e.succs, ends.Keys + {start}), ends[start := e], bodies[start := body], halt)
    ensures ends[start := e].Keys == ends.Keys + {start}
  {
    RunsOkStep(job, ends, bodies, was, start, body, e, halt);
    assert ends[start := e].Keys == ends.Keys + {start};
    FrontierStep(job, ends, had, start, body, e, halt, rest + Fresh(job, e.succs, ends.Keys + {start}));
  }

  /** The walk's loop invariant: what it has counted up. */
  ghost predicate Counted(job: Job, caps: Caps, ends: map<Addr, Ending>, bodies: map<Addr, seq<Insn>>,
                          calls: set<Addr>, indirect: bool, budget: nat) {
    Summed(job, bodies, calls, indirect) && |ends| <= caps.functionBlocks && budget + Spent(bodies) == caps.functionInsns
  }

  lemma CountStep(job: Job, caps: Caps, ends: map<Addr, Ending>, bodies: map<Addr, seq<Insn>>,
                  calls: set<Addr>, indirect: bool, budget: nat, left: nat, start: Addr, body: seq<Insn>, e: Ending)
    requires Counted(job, caps, ends, bodies, calls, indirect, budget)
    requires start !in ends && bodies.Keys == ends.Keys && |ends| < caps.functionBlocks && left + |body| == budget
    ensures Counted(job, caps, ends[start := e], bodies[start := body], calls + CallsIn(job, body),
                    indirect || EndsUnfollowed(job, body), left)
    ensures |ends[start := e]| == |ends| + 1
  {
    SpentAdd(bodies, start, body);
    SummedStep(job, bodies, calls, indirect, start, body);
    assert ends[start := e].Keys == ends.Keys + {start};
  }

  /** Only the run the cap was reached in was cut short with anything decoded. */
  ghost predicate Drained(job: Job, ends: map<Addr, Ending>, bodies: map<Addr, seq<Insn>>) {
    bodies.Keys == ends.Keys &&
    forall s, t :: CutShort(job, ends, bodies, s) && CutShort(job, ends, bodies, t) ==> s == t
  }

  ghost predicate CutShort(job: Job, ends: map<Addr, Ending>, bodies: map<Addr, seq<Insn>>, s: Addr) {
    s in ends && s in bodies && Short(job, bodies[s], ends[s]) && bodies[s] != []
  }

  ghost predicate CutOffAt(job: Job, ends: map<Addr, Ending>, bodies: map<Addr, seq<Insn>>, s: Addr) {
    s in ends && s in bodies && CutOff(job, bodies[s], ends[s])
  }

  /** Why a walk with so much left is not complete: the last run that was cut off
      ran out, or came to what does not decode. */
  ghost predicate Reason(job: Job, ends: map<Addr, Ending>, bodies: map<Addr, seq<Insn>>, halt: Halt, left: nat) {
    match halt
    case Complete => forall s :: !CutOffAt(job, ends, bodies, s)
    case InstructionCap => left == 0 && exists s :: CutOffAt(job, ends, bodies, s)
    case Undecodable => exists s :: CutOffAt(job, ends, bodies, s) && !job.Decodable(ends[s].end)
    case BlockCap => false
  }

  lemma ReasonStep(job: Job, ends: map<Addr, Ending>, bodies: map<Addr, seq<Insn>>, was: Halt, left: nat,
                   start: Addr, body: seq<Insn>, e: Ending, halt: Halt, now: nat)
    requires Reason(job, ends, bodies, was, left) && start !in ends && now <= left && (Short(job, body, e) ==> now == 0)
    requires halt == if CutOff(job, body, e) then (if now == 0 then InstructionCap else Undecodable) else was
    ensures Reason(job, ends[start := e], bodies[start := body], halt, now)
  {
    var ends2, bodies2 := ends[start := e], bodies[start := body];
    forall s | s != start ensures CutOffAt(job, ends2, bodies2, s) == CutOffAt(job, ends, bodies, s) {
    }
    if CutOff(job, body, e) {
      assert CutOffAt(job, ends2, bodies2, start);
    } else if was != Complete {
      var s :| CutOffAt(job, ends, bodies, s) && (was == Undecodable ==> !job.Decodable(ends[s].end));
      assert CutOffAt(job, ends2, bodies2, s);
    }
  }

  /** Why the walk stopped where it did. */
  ghost predicate Halted(job: Job, caps: Caps, ends: map<Addr, Ending>, bodies: map<Addr, seq<Insn>>, halt: Halt) {
    if halt == BlockCap then |ends| == caps.functionBlocks && exists t: Addr :: job.Landing(t) && t !in ends
    else Spent(bodies) <= caps.functionInsns && Reason(job, ends, bodies, halt, caps.functionInsns - Spent(bodies))
  }

  /** Every start but the entry is where some run left to. */
  ghost predicate Sourced(job: Job, ends: map<Addr, Ending>, starts: set<Addr>) {
    forall t :: t in starts ==> t == job.entry || exists s :: SuccOf(ends, s, t)
  }

  ghost predicate SuccOf(ends: map<Addr, Ending>, s: Addr, t: Addr) {
    s in ends && t in ends[s].succs
  }

  lemma SourceStep(job: Job, ends: map<Addr, Ending>, starts: set<Addr>, start: Addr, e: Ending, now: set<Addr>)
    requires Sourced(job, ends, starts) && start !in ends
    requires now <= starts + Elems(e.succs)
    ensures Sourced(job, ends[start := e], now)
  {
    var more := ends[start := e];
    forall t | t in now && t != job.entry ensures exists s :: SuccOf(more, s, t) {
      if t in e.succs {
        assert SuccOf(more, start, t);
      } else {
        var s :| SuccOf(ends, s, t);
        assert SuccOf(more, s, t);
      }
    }
  }

  /** The same with what is left: none was cut short while there is any. */
  ghost predicate Draining(job: Job, ends: map<Addr, Ending>, bodies: map<Addr, seq<Insn>>, left: nat) {
    match job
    case Job(_, _, _, _, _) =>
      (Drained(job, ends, bodies) && (left > 0 ==> forall s :: !CutShort(job, ends, bodies, s)))
  }

  lemma DrainStep(job: Job, ends: map<Addr, Ending>, bodies: map<Addr, seq<Insn>>, left: nat, now: nat, start: Addr,
                  body: seq<Insn>, e: Ending)
    requires Draining(job, ends, bodies, left) && start !in ends && now + |body| == left && (Short(job, body, e) ==> now == 0)
    ensures Draining(job, ends[start := e], bodies[start := body], now)
  {
    var ends2, bodies2 := ends[start := e], bodies[start := body];
    forall s | s != start ensures CutShort(job, ends2, bodies2, s) == CutShort(job, ends, bodies, s) {
    }
  }

  /** A walk allowed a block has taken its entry, and has an instruction there
      when one decodes and the budget allows one. */
  ghost predicate Begun(job: Job, caps: Caps, ends: map<Addr, Ending>, bodies: map<Addr, seq<Insn>>) {
    caps.functionBlocks > 0 ==>
      job.entry in ends && job.entry in bodies &&
      (caps.functionInsns > 0 && job.Decodable(job.entry) ==> bodies[job.entry] != [])
  }

  /** The same from the first step on, when only the entry is queued. */
  ghost predicate Opening(job: Job, caps: Caps, work: seq<Addr>, ends: map<Addr, Ending>, bodies: map<Addr, seq<Insn>>, budget: nat) {
    match job
    case Job(_, entry, _, _, _) =>
      ((ends == map[] && work == [entry] && budget == caps.functionInsns) || Begun(job, caps, ends, bodies))
  }

  lemma OpeningStep(job: Job, caps: Caps, work: seq<Addr>, ends: map<Addr, Ending>, bodies: map<Addr, seq<Insn>>, budget: nat,
                    start: Addr, body: seq<Insn>, e: Ending)
    requires Opening(job, caps, work, ends, bodies, budget) && work != [] && start == work[|work| - 1] && start !in ends
    requires |ends| < caps.functionBlocks && (budget > 0 && job.Decodable(start) ==> body != [])
    ensures Begun(job, caps, ends[start := e], bodies[start := body])
  {
  }

  lemma OpeningSkip(job: Job, caps: Caps, work: seq<Addr>, ends: map<Addr, Ending>, bodies: map<Addr, seq<Insn>>, budget: nat)
    requires Opening(job, caps, work, ends, bodies, budget) && ends != map[]
    ensures Begun(job, caps, ends, bodies)
  {
  }

  lemma OpeningDone(job: Job, caps: Caps, work: seq<Addr>, ends: map<Addr, Ending>, bodies: map<Addr, seq<Insn>>, budget: nat)
    requires Opening(job, caps, work, ends, bodies, budget) && (work == [] || |ends| >= caps.functionBlocks)
    ensures Begun(job, caps, ends, bodies)
  {
  }

  /** What the walk leaves behind besides its runs: a first instruction, one run
      the cap cut short, and a source for every start. */
  ghost predicate Traced(job: Job, caps: Caps, work: seq<Addr>, ends: map<Addr, Ending>, bodies: map<Addr, seq<Insn>>, left: nat) {
    match caps
    case Caps(_, _) =>
      (Opening(job, caps, work, ends, bodies, left) && Draining(job, ends, bodies, left) &&
       Sourced(job, ends, ends.Keys + Elems(work)))
  }

  lemma KeysFit(ends: map<Addr, Ending>, work: seq<Addr>, start: Addr, e: Ending, more: seq<Addr>)
    requires work != [] && start == work[|work| - 1] && Elems(more) <= Elems(work) + Elems(e.succs)
    ensures ends[start := e].Keys + Elems(more) <= ends.Keys + Elems(work) + Elems(e.succs)
  {
    assert start in Elems(work);
  }

  lemma TraceStep(job: Job, caps: Caps, work: seq<Addr>, ends: map<Addr, Ending>, bodies: map<Addr, seq<Insn>>, left: nat,
                  start: Addr, body: seq<Insn>, e: Ending, now: nat, more: seq<Addr>)
    requires Traced(job, caps, work, ends, bodies, left) && work != [] && start == work[|work| - 1] && start !in ends
    requires |ends| < caps.functionBlocks && (left > 0 && job.Decodable(start) ==> body != [])
    requires now + |body| == left && (Short(job, body, e) ==> now == 0) && Elems(more) <= Elems(work) + Elems(e.succs)
    ensures Traced(job, caps, more, ends[start := e], bodies[start := body], now)
  {
    OpeningStep(job, caps, work, ends, bodies, left, start, body, e);
    DrainStep(job, ends, bodies, left, now, start, body, e);
    KeysFit(ends, work, start, e, more);
    SourceStep(job, ends, ends.Keys + Elems(work), start, e, ends[start := e].Keys + Elems(more));
  }

  /** A start walked already needs no place in the queue. */
  lemma TraceSkip(job: Job, caps: Caps, work: seq<Addr>, ends: map<Addr, Ending>, bodies: map<Addr, seq<Insn>>, left: nat,
                  more: seq<Addr>)
    requires Traced(job, caps, work, ends, bodies, left) && ends != map[] && Elems(more) <= Elems(work)
    ensures Traced(job, caps, more, ends, bodies, left)
  {
    OpeningSkip(job, caps, work, ends, bodies, left);
  }

  lemma TraceDone(job: Job, caps: Caps, work: seq<Addr>, ends: map<Addr, Ending>, bodies: map<Addr, seq<Insn>>, left: nat)
    requires Traced(job, caps, work, ends, bodies, left) && (work == [] || |ends| >= caps.functionBlocks)
    ensures Begun(job, caps, ends, bodies) && Drained(job, ends, bodies) && Sourced(job, ends, ends.Keys)
  {
    OpeningDone(job, caps, work, ends, bodies, left);
  }

  /** Everything the walk has at hand between two starts. */
  datatype Course = Course(work: seq<Addr>, ends: map<Addr, Ending>, bodies: map<Addr, seq<Insn>>, calls: set<Addr>,
                           indirect: bool, halt: Halt, left: nat)

  ghost predicate Under(job: Job, caps: Caps, c: Course) {
    match c
    case Course(work, ends, bodies, calls, indirect, halt, left) =>
      (Explored(job, Elems(work), ends, bodies, halt) && Counted(job, caps, ends, bodies, calls, indirect, left) &&
       Traced(job, caps, work, ends, bodies, left) && Reason(job, ends, bodies, halt, left))
  }

  lemma UnderStart(job: Job, caps: Caps)
    ensures Under(job, caps, Course([job.entry], map[], map[], {}, false, Complete, caps.functionInsns))
  {
    EntryReachable(job);
    assert Elems([job.entry]) == {job.entry};
  }

  lemma UnderSkip(job: Job, caps: Caps, c: Course)
    requires Under(job, caps, c) && c.work != [] && c.work[|c.work| - 1] in c.ends
    ensures Under(job, caps, c.(work := c.work[..|c.work| - 1]))
  {
    var more := c.work[..|c.work| - 1];
    PopElems(c.work);
    FrontierSkip(job, c.ends, Elems(c.work), c.work[|c.work| - 1], Elems(more));
    TraceSkip(job, caps, c.work, c.ends, c.bodies, c.left, more);
  }

  /** One more run recorded, and its fresh successors queued. */
  ghost predicate Follows(job: Job, c: Course, d: Course, start: Addr, body: seq<Insn>, e: Ending) {
    c.work != [] && start == c.work[|c.work| - 1] &&
    Elems(d.work) == Elems(c.work[..|c.work| - 1]) + Fresh(job, e.succs, c.ends.Keys + {start}) &&
    d.ends == c.ends[start := e] && d.bodies == c.bodies[start := body] && d.calls == c.calls + CallsIn(job, body) &&
    d.indirect == (c.indirect || EndsUnfollowed(job, body)) && d.left + |body| == c.left &&
    d.halt == if CutOff(job, body, e) then (if d.left == 0 then InstructionCap else Undecodable) else c.halt
  }

  lemma ExploreFollows(job: Job, c: Course, d: Course, start: Addr, body: seq<Insn>, e: Ending)
    requires job.p.Valid() && Explored(job, Elems(c.work), c.ends, c.bodies, c.halt) && Follows(job, c, d, start, body, e)
    requires start !in c.ends && RunOk(job, start, body, e, c.ends.Keys + {start}, d.halt) && Ascending(e.succs)
    ensures Explored(job, Elems(d.work), d.ends, d.bodies, d.halt)
    ensures d.ends.Keys == c.ends.Keys + {start} && c.bodies.Keys == c.ends.Keys
  {
    PopElems(c.work);
    ExploreStep(job, Elems(c.work), Elems(c.work[..|c.work| - 1]), c.ends, c.bodies, c.halt, d.halt, start, body, e);
  }

  lemma TraceFollows(job: Job, caps: Caps, c: Course, d: Course, start: Addr, body: seq<Insn>, e: Ending)
    requires Traced(job, caps, c.work, c.ends, c.bodies, c.left) && Follows(job, c, d, start, body, e)
    requires start !in c.ends && |c.ends| < caps.functionBlocks
    requires (c.left > 0 && job.Decodable(start) ==> body != []) && (Short(job, body, e) ==> d.left == 0)
    ensures Traced(job, caps, d.work, d.ends, d.bodies, d.left)
  {
    PopElems(c.work);
    TraceStep(job, caps, c.work, c.ends, c.bodies, c.left, start, body, e, d.left, d.work);
  }

  lemma CountFollows(job: Job, caps: Caps, c: Course, d: Course, start: Addr, body: seq<Insn>, e: Ending)
    requires Counted(job, caps, c.ends, c.bodies, c.calls, c.indirect, c.left) && Follows(job, c, d, start, body, e)
    requires start !in c.ends && c.bodies.Keys == c.ends.Keys && |c.ends| < caps.functionBlocks
    ensures Counted(job, caps, d.ends, d.bodies, d.calls, d.indirect, d.left)
    ensures |d.ends| == |c.ends| + 1
  {
    CountStep(job, caps, c.ends, c.bodies, c.calls, c.indirect, c.left, d.left, start, body, e);
  }

  lemma UnderStep(job: Job, caps: Caps, c: Course, d: Course, start: Addr, body: seq<Insn>, e: Ending)
    requires job.p.Valid() && Under(job, caps, c) && Follows(job, c, d, start, body, e) && |c.ends| < caps.functionBlocks
    requires start !in c.ends && RunOk(job, start, body, e, c.ends.Keys + {start}, d.halt) && Ascending(e.succs)
    requires (c.left > 0 && job.Decodable(start) ==> body != []) && (Short(job, body, e) ==> d.left == 0)
    ensures Under(job, caps, d)
    ensures |d.ends| == |c.ends| + 1 && d.ends.Keys == c.ends.Keys + {start}
  {
    ExploreFollows(job, c, d, start, body, e);
    CountFollows(job, caps, c, d, start, body, e);
    TraceFollows(job, caps, c, d, start, body, e);
    ReasonStep(job, c.ends, c.bodies, c.halt, c.left, start, body, e, d.halt, d.left);
  }

  /** What a walk leaves behind besides its runs. */
  ghost predicate Traces(job: Job, caps: Caps, ends: map<Addr, Ending>, bodies: map<Addr, seq<Insn>>, halt: Halt) {
    Begun(job, caps, ends, bodies) && Drained(job, ends, bodies) && Sourced(job, ends, ends.Keys) &&
    Halted(job, caps, ends, bodies, halt)
  }

  /** Where the walk stops, its queue empty or the block cap reached. */
  lemma UnderDone(job: Job, caps: Caps, c: Course, halt: Halt)
    requires Under(job, caps, c)
    requires if c.work == [] then halt == c.halt
      else halt == BlockCap && |c.ends| >= caps.functionBlocks && c.work[|c.work| - 1] !in c.ends
    ensures RunsOk(job, c.ends, c.bodies, halt)
    ensures forall s :: s in c.ends ==> job.Landing(s)
    ensures halt == Complete ==> Rooted(job, c.ends.Keys, {}) && Closed(job, c.ends, {})
    ensures Summed(job, c.bodies, c.calls, c.indirect)
    ensures |c.ends| <= caps.functionBlocks && Spent(c.bodies) <= caps.functionInsns
    ensures Traces(job, caps, c.ends, c.bodies, halt)
  {
    TraceDone(job, caps, c.work, c.ends, c.bodies, c.left);
    if c.work != [] {
      RunsOkHalted(job, c.ends, c.bodies, c.halt, halt);
      assert c.work[|c.work| - 1] in Elems(c.work);
    } else {
      assert Elems(c.work) == {};
    }
  }

  /** A course of the walk, field by field. */
  ghost predicate Holds(c: Course, work: seq<Addr>, ends: map<Addr, Ending>, calls: set<Addr>, indirect: bool, halt: Halt, left: nat) {
    c.work == work && c.ends == ends && c.calls == calls && c.indirect == indirect && c.halt == halt && c.left == left
  }

  /** Pop one start. If it is new, decode its run and queue where it can go. A start
      is recorded exactly when its run is, so the runs are what has been seen. */
  method Visit(job: Job, caps: Caps, had: seq<Addr>, was: map<Addr, Ending>, calls0: set<Addr>, indirect0: bool,
               halted: Halt, budget: nat, ghost c: Course)
    returns (work: seq<Addr>, ends: map<Addr, Ending>, calls: set<Addr>, indirect: bool, halt: Halt, left: nat, ghost d: Course)
    requires job.p.Valid() && Under(job, caps, c) && Holds(c, had, was, calls0, indirect0, halted, budget)
    requires had != [] && (had[|had| - 1] in was || |was| < caps.functionBlocks)
    ensures Under(job, caps, d) && Holds(d, work, ends, calls, indirect, halt, left)
    ensures |ends| == |was| + 1 || (|ends| == |was| && |work| < |had|)
  {
    var start, rest := had[|had| - 1], had[..|had| - 1];
    work, ends, calls, indirect, halt, left := rest, was, calls0, indirect0, halted, budget;
    if start in was {
      UnderSkip(job, caps, c);
      d := c.(work := rest);
    } else {
      var seen := was.Keys + {start};
      var body, e, more, i;
      body, e, more, i, left, halt := Run(job, start, seen, budget, halted);
      work := Push(job, rest, seen, e.succs);
      ends, calls, indirect := was[start := e], calls0 + more, indirect0 || i;
      d := Course(work, ends, c.bodies[start := body], calls, indirect, halt, left);
      UnderStep(job, caps, c, d, start, body, e);
    }
  }

  /** There is a start to take, and it was taken before or there is room for it. */
  predicate GoesOn(work: seq<Addr>, ends: map<Addr, Ending>, caps: Caps) {
    match caps
    case Caps(_, functionBlocks) => work != [] && (work[|work| - 1] in ends || |ends| < functionBlocks)
  }

  /** The walk itself, until nothing is queued or the block cap is reached. */
  method Explore(job: Job, caps: Caps)
    returns (work: seq<Addr>, ends: map<Addr, Ending>, calls: set<Addr>, indirect: bool, halt: Halt, left: nat, ghost c: Course)
    requires job.p.Valid()
    ensures Under(job, caps, c) && Holds(c, work, ends, calls, indirect, halt, left)
    ensures !GoesOn(work, ends, caps)
  {
    work, left := [job.entry], caps.functionInsns;
    ends, calls, indirect, halt := map[], {}, false, Complete;
    c := Course(work, ends, map[], calls, indirect, halt, left);
    UnderStart(job, caps);
    while GoesOn(work, ends, caps)
      invariant Under(job, caps, c) && Holds(c, work, ends, calls, indirect, halt, left)
      decreases caps.functionBlocks + 1 - |ends|, |work|
    {
      work, ends, calls, indirect, halt, left, c := Visit(job, caps, work, ends, calls, indirect, halt, left, c);
    }
  }

  /** The walk: pop a start, decode its run, queue where it can go. */
  method Descend(job: Job, caps: Caps)
    returns (ends: map<Addr, Ending>, calls: set<Addr>, indirect: bool, halt: Halt, ghost bodies: map<Addr, seq<Insn>>)
    requires job.p.Valid()
    ensures RunsOk(job, ends, bodies, halt)
    ensures forall s :: s in ends ==> job.Landing(s)
    ensures halt == Complete ==> Rooted(job, ends.Keys, {}) && Closed(job, ends, {})
    ensures Summed(job, bodies, calls, indirect)
    ensures |ends| <= caps.functionBlocks && Spent(bodies) <= caps.functionInsns
    ensures Traces(job, caps, ends, bodies, halt)
  {
    var work, left;
    ghost var c;
    work, ends, calls, indirect, halt, left, c := Explore(job, caps);
    bodies := c.bodies;
    if work != [] {
      halt := BlockCap;
    }
    UnderDone(job, caps, c, halt);
  }

  lemma PopElems(work: seq<Addr>)
    requires work != []
    ensures Elems(work) == Elems(work[..|work| - 1]) + {work[|work| - 1]}
  {
    var rest := work[..|work| - 1];
    assert work == rest + [work[|work| - 1]];
  }

  /** Queue the executable successors not seen yet. */
  method Push(job: Job, work: seq<Addr>, seen: set<Addr>, succs: seq<Addr>) returns (more: seq<Addr>)
    ensures Elems(more) == Elems(work) + Fresh(job, succs, seen)
  {
    more := work;
    for k := 0 to |succs|
      invariant Elems(more) == Elems(work) + Fresh(job, succs[..k], seen)
    {
      assert succs[..k + 1] == succs[..k] + [succs[k]];
      if succs[k] !in seen && succs[k] in job.p.exec {
        more := more + [succs[k]];
        PopElems(more);
      }
    }
    assert succs[..|succs|] == succs;
  }
}
