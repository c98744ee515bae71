/** Finding functions: rounds of walking what the evidence names, then one sweep
    of what is left (crates/e5r-analysis/src/program.rs). */
module Discover {
  import opened Ordered
  import opened Image
  import opened Walk
  import opened Blocks
  import opened WalkTheorems
  import opened Ranges
  import opened Gaps
  import D = DataMap

  datatype Options = Options(followCalls: bool, scanGaps: bool, data: bool, caps: Caps) {
    /** A walk may have a block and an instruction. */
    predicate Roomy() {
      caps.functionBlocks > 0 && caps.functionInsns > 0
    }
  }

  /** What is analysed: the image, its segments, where prologues are, and the
      data regions the recovered functions prove. */
  datatype Target = Target(p: Program, arch: Arch, segments: seq<Segment>, prologue: Addr -> bool,
                           proofs: map<Addr, RawCfg> -> seq<D.Region>)

  type Functions = map<Addr, RawCfg>

  // ---------------------------------------------------------------- one function

  ghost predicate WalkOf(job: Job, caps: Caps, raw: RawCfg, ends: map<Addr, Ending>, bodies: map<Addr, seq<Insn>>) {
    job.p.Valid() && Result(job, caps, raw, ends, bodies) && Traces(job, caps, ends, bodies, raw.halt)
  }

  /** The graph is what a walk from this entry gives under a stop set within
      `stops`, with nothing known never to return. */
  ghost predicate Walked(t: Target, caps: Caps, a: Addr, raw: RawCfg, stops: set<Addr>) {
    match t
    case Target(p, _, _, _, _) =>
      exists job: Job, ends, bodies :: WalkOf(job, caps, raw, ends, bodies) &&
        job.p == p && job.entry == a && job.noreturn == {} && job.stopAt <= stops
  }

  lemma WalkedGrows(t: Target, caps: Caps, a: Addr, raw: RawCfg, few: set<Addr>, many: set<Addr>)
    requires Walked(t, caps, a, raw, few) && few <= many
    ensures Walked(t, caps, a, raw, many)
  {
    var job: Job, ends, bodies :| WalkOf(job, caps, raw, ends, bodies) &&
      job.p == t.p && job.entry == a && job.noreturn == {} && job.stopAt <= few;
    assert job.stopAt <= many;
  }

  /** The graph is what a walk from this entry gives under a stop set within
      `stops`, with nothing known to be data or never to return. */
  ghost predicate WalkedBy(t: Target, caps: Caps, a: Addr, raw: RawCfg, stops: set<Addr>) {
    match t
    case Target(p, _, _, _, _) =>
      exists job: Job, ends, bodies :: WalkOf(job, caps, raw, ends, bodies) &&
        job.p == p && job.entry == a && job.noreturn == {} && job.data == {} && job.stopAt <= stops
  }

  lemma WalkedByGrows(t: Target, caps: Caps, a: Addr, raw: RawCfg, few: set<Addr>, many: set<Addr>)
    requires WalkedBy(t, caps, a, raw, few) && few <= many
    ensures WalkedBy(t, caps, a, raw, many) && Walked(t, caps, a, raw, many)
  {
    var job: Job, ends, bodies :| WalkOf(job, caps, raw, ends, bodies) &&
      job.p == t.p && job.entry == a && job.noreturn == {} && job.data == {} && job.stopAt <= few;
    assert job.stopAt <= many;
  }

  /** The graph is what this walk gives. */
  ghost predicate From(job: Job, caps: Caps, raw: RawCfg) {
    exists ends, bodies :: WalkOf(job, caps, raw, ends, bodies)
  }

  method WalkOne(t: Target, opts: Options, a: Addr, stopAt: set<Addr>, data: set<Addr>) returns (raw: RawCfg)
    requires t.p.Valid()
    ensures From(Job(t.p, a, stopAt, {}, data), opts.caps, raw)
    ensures Walked(t, opts.caps, a, raw, stopAt)
    ensures data == {} ==> WalkedBy(t, opts.caps, a, raw, stopAt)
    ensures opts.Roomy() ==> (raw.blocks == [] <==> a !in t.p.code || a in data)
  {
    var job := Job(t.p, a, stopAt, {}, data);
    ghost var ends, bodies;
    raw, ends, bodies := BuildRaw(job, opts.caps);
    WalkGives(t, opts, job, raw, ends, bodies);
  }

  /** What a walk with nothing known never to return says of its entry. */
  lemma WalkGives(t: Target, opts: Options, job: Job, raw: RawCfg, ends: map<Addr, Ending>, bodies: map<Addr, seq<Insn>>)
    requires WalkOf(job, opts.caps, raw, ends, bodies) && job.p == t.p && job.noreturn == {}
    ensures From(job, opts.caps, raw)
    ensures Walked(t, opts.caps, job.entry, raw, job.stopAt)
    ensures job.data == {} ==> WalkedBy(t, opts.caps, job.entry, raw, job.stopAt)
    ensures opts.Roomy() ==> (raw.blocks == [] <==> !job.Decodable(job.entry))
  {
    if opts.Roomy() {
      NoBlocksIff(job, opts.caps, raw, ends, bodies);
    }
  }

  // ------------------------------------------------------------------- the rounds

  /** What is known, what there is evidence for, and what waits to be walked. */
  datatype State = State(known: Functions, evidence: set<Addr>, waiting: set<Addr>)

  /** An address whose walk gives no blocks. */
  predicate Barren(t: Target, opts: Options, a: Addr) {
    opts.Roomy() ==> a !in t.p.code
  }

  ghost predicate AllWalked(t: Target, opts: Options, known: Functions, stops: set<Addr>) {
    forall a :: a in known ==> known[a].blocks != [] && Walked(t, opts.caps, a, known[a], stops)
  }

  /** The same for functions evidence led to. */
  ghost predicate AllLed(t: Target, opts: Options, known: Functions, stops: set<Addr>) {
    forall a :: a in known ==> known[a].blocks != [] && WalkedBy(t, opts.caps, a, known[a], stops)
  }

  lemma LedStep(t: Target, opts: Options, known: Functions, few: set<Addr>, many: set<Addr>, a: Addr, raw: RawCfg)
    requires AllLed(t, opts, known, few) && few <= many && raw.blocks != [] && WalkedBy(t, opts.caps, a, raw, few)
    ensures AllLed(t, opts, known[a := raw], many)
  {
    var more := known[a := raw];
    forall x | x in more ensures more[x].blocks != [] && WalkedBy(t, opts.caps, x, more[x], many) {
      WalkedByGrows(t, opts.caps, x, more[x], few, many);
    }
  }

  lemma LedWalked(t: Target, opts: Options, known: Functions, stops: set<Addr>)
    requires AllLed(t, opts, known, stops)
    ensures AllWalked(t, opts, known, stops)
  {
    forall a | a in known ensures known[a].blocks != [] && Walked(t, opts.caps, a, known[a], stops) {
      WalkedByGrows(t, opts.caps, a, known[a], stops, stops);
    }
  }

  /** Every executable call target of a known function has evidence. */
  ghost predicate Followed(t: Target, known: Functions, evidence: set<Addr>) {
    forall f, c :: f in known && c in known[f].calls && c in t.p.exec ==> c in evidence
  }

  ghost predicate Placed(t: Target, opts: Options, s: State) {
    match s
    case State(known, evidence, waiting) =>
      forall a :: a in evidence ==> a in known || a in waiting || Barren(t, opts, a)
  }

  /** Everything with evidence is known, waiting, or gives no blocks. */
  ghost predicate Accounted(t: Target, opts: Options, s: State) {
    match s
    case State(known, evidence, waiting) =>
      (evidence <= t.p.exec && waiting <= evidence && AllLed(t, opts, known, evidence) &&
       Placed(t, opts, s) && (opts.followCalls ==> Followed(t, known, evidence)))
  }

  /** A set that holds what the known functions in it call. */
  ghost predicate HoldsCalls(t: Target, opts: Options, known: Functions, within: set<Addr>) {
    opts.followCalls ==> forall f :: f in known && f in within ==> known[f].calls * t.p.exec <= within
  }

  /** Nothing has evidence but what the seeds and the calls of known functions give:
      the evidence is in every set that holds the seeds and those calls. */
  ghost predicate Grounded(t: Target, opts: Options, seeds: set<Addr>, known: Functions, evidence: set<Addr>) {
    match t
    case Target(_, _, _, _, _) =>
      (known.Keys <= evidence && seeds <= evidence &&
       forall within: set<Addr> :: seeds <= within && HoldsCalls(t, opts, known, within) ==> evidence <= within)
  }

  lemma GroundedStep(t: Target, opts: Options, seeds: set<Addr>, known: Functions, evidence: set<Addr>, a: Addr, raw: RawCfg)
    requires Grounded(t, opts, seeds, known, evidence) && a in evidence && a !in known
    ensures Grounded(t, opts, seeds, known[a := raw], Widened(t, opts, evidence, raw))
  {
    var more := known[a := raw];
    forall within: set<Addr> | seeds <= within && HoldsCalls(t, opts, more, within)
      ensures Widened(t, opts, evidence, raw) <= within
    {
      FewerCalls(t, opts, known, a, raw, within);
      assert more[a] == raw;
    }
  }

  lemma FewerCalls(t: Target, opts: Options, known: Functions, a: Addr, raw: RawCfg, within: set<Addr>)
    requires HoldsCalls(t, opts, known[a := raw], within) && a !in known
    ensures HoldsCalls(t, opts, known, within)
  {
    forall f | opts.followCalls && f in known && f in within ensures known[f].calls * t.p.exec <= within {
      assert known[a := raw][f] == known[f];
    }
  }

  ghost predicate Extends(few: Functions, many: Functions) {
    forall a :: a in few ==> a in many && many[a] == few[a]
  }

  /** Give evidence to a walked function's call targets and queue the new ones. */
  method QueueCalls(t: Target, calls: set<Addr>, evidence: set<Addr>, pending: seq<Addr>)
    returns (more: set<Addr>, queued: seq<Addr>)
    ensures more == evidence + calls * t.p.exec
    ensures Elems(queued) == Elems(pending) + (calls * t.p.exec - evidence)
    ensures pending <= queued
  {
    var order := Sorted(calls);
    more, queued := evidence, pending;
    for k := 0 to |order|
      invariant Queued(Elems(order[..k]) * t.p.exec, evidence, Elems(pending), more, Elems(queued))
      invariant pending <= queued
    {
      TakeOneMore(order, k);
      var c := order[k];
      QueueStep(Elems(order[..k]), t.p.exec, evidence, Elems(pending), more, Elems(queued), c);
      if c in t.p.exec && c !in more {
        more := more + {c};
        PushElems(queued, c);
        queued := queued + [c];
      }
    }
    assert order[..|order|] == order;
    assert Elems(order) == calls;
  }

  /** Of the targets looked at, all have evidence and the new ones are queued. */
  ghost predicate Queued(targets: set<Addr>, evidence: set<Addr>, pending: set<Addr>, more: set<Addr>, queued: set<Addr>) {
    more == evidence + targets && queued == pending + (targets - evidence)
  }

  lemma QueueStep(done: set<Addr>, exec: set<Addr>, evidence: set<Addr>, pending: set<Addr>, more: set<Addr>,
                  queued: set<Addr>, c: Addr)
    requires Queued(done * exec, evidence, pending, more, queued)
    ensures if c in exec && c !in more then Queued((done + {c}) * exec, evidence, pending, more + {c}, queued + {c})
      else Queued((done + {c}) * exec, evidence, pending, more, queued)
  {
    assert (done + {c}) * exec == done * exec + (if c in exec then {c} else {});
  }

  lemma PushElems(xs: seq<Addr>, x: Addr)
    ensures Elems(xs + [x]) == Elems(xs) + {x}
  {
  }

  lemma FollowedStep(t: Target, known: Functions, few: set<Addr>, many: set<Addr>, a: Addr, raw: RawCfg)
    requires Followed(t, known, few) && few <= many && raw.calls * t.p.exec <= many
    ensures Followed(t, known[a := raw], many)
  {
  }

  lemma PlacedStep(t: Target, opts: Options, s: State, a: Addr, raw: RawCfg, more: set<Addr>)
    requires Placed(t, opts, s)
    ensures Placed(t, opts, State(s.known[a := raw], more, s.waiting - {a} + (more - s.evidence)))
  {
  }

  /** A walk that gave no blocks settles its address. */
  lemma SettleBarren(t: Target, opts: Options, s: State, a: Addr)
    requires Accounted(t, opts, s) && Barren(t, opts, a)
    ensures Accounted(t, opts, s.(waiting := s.waiting - {a}))
  {
  }

  /** A walk that gave blocks makes its address known and accounts for its calls. */
  lemma SettleKnown(t: Target, opts: Options, s: State, a: Addr, raw: RawCfg, more: set<Addr>)
    requires Accounted(t, opts, s) && raw.blocks != [] && WalkedBy(t, opts.caps, a, raw, s.evidence)
    requires more == Widened(t, opts, s.evidence, raw)
    ensures Accounted(t, opts, State(s.known[a := raw], more, s.waiting - {a} + (more - s.evidence)))
  {
    LedStep(t, opts, s.known, s.evidence, more, a, raw);
    PlacedStep(t, opts, s, a, raw, more);
    if opts.followCalls {
      FollowedStep(t, s.known, s.evidence, more, a, raw);
    }
  }

  /** Part way through a batch: what is left of it and what it has queued wait. */
  ghost predicate Batching(t: Target, opts: Options, known0: Functions, evidence0: set<Addr>, s: State, rest: seq<Addr>,
                           pending: seq<Addr>) {
    Accounted(t, opts, s) && Onward(State(known0, evidence0, {}), s, rest, pending)
  }

  ghost function Standing(known: Functions, evidence: set<Addr>, rest: seq<Addr>, pending: seq<Addr>): State {
    State(known, evidence, Elems(rest) + Elems(pending))
  }

  /** A batch keeps what was known and waits only for what is left or newly queued. */
  ghost predicate Onward(start: State, s: State, rest: seq<Addr>, pending: seq<Addr>) {
    match s
    case State(known, evidence, waiting) =>
      (waiting == Elems(rest) + Elems(pending) && Extends(start.known, known) && start.evidence <= evidence &&
       (forall a :: a in rest ==> a !in known) && Elems(pending) <= evidence - start.evidence)
  }

  /** The evidence after a walk's calls are taken. */
  function Widened(t: Target, opts: Options, evidence: set<Addr>, raw: RawCfg): set<Addr> {
    if opts.followCalls then evidence + raw.calls * t.p.exec else evidence
  }

  lemma OnwardBarren(start: State, s: State, batch: seq<Addr>, k: nat, pending: seq<Addr>)
    requires Ascending(batch) && k < |batch| && Onward(start, s, batch[k..], pending)
    ensures Onward(start, Standing(s.known, s.evidence, batch[k + 1..], pending), batch[k + 1..], pending)
    ensures s.waiting - {batch[k]} <= Elems(batch[k + 1..]) + Elems(pending) <= s.waiting
  {
    NextOfBatch(batch, k);
  }

  lemma OnwardKnown(start: State, s: State, batch: seq<Addr>, k: nat, pending: seq<Addr>, raw: RawCfg, more: set<Addr>,
                    queued: seq<Addr>)
    requires Ascending(batch) && k < |batch| && Onward(start, s, batch[k..], pending)
    requires s.evidence <= more && Elems(queued) == Elems(pending) + (more - s.evidence)
    ensures Onward(start, Standing(s.known[batch[k] := raw], more, batch[k + 1..], queued), batch[k + 1..], queued)
    ensures s.waiting - {batch[k]} + (more - s.evidence) <= Elems(batch[k + 1..]) + Elems(queued) <= s.waiting + more
  {
    NextOfBatch(batch, k);
  }

  lemma BatchBarren(t: Target, opts: Options, known0: Functions, evidence0: set<Addr>, s: State, batch: seq<Addr>, k: nat,
                    pending: seq<Addr>)
    requires Ascending(batch) && k < |batch| && Barren(t, opts, batch[k])
    requires Batching(t, opts, known0, evidence0, s, batch[k..], pending)
    ensures Batching(t, opts, known0, evidence0, Standing(s.known, s.evidence, batch[k + 1..], pending), batch[k + 1..], pending)
  {
    OnwardBarren(State(known0, evidence0, {}), s, batch, k, pending);
    SettleBarren(t, opts, s, batch[k]);
    StillWaiting(t, opts, s.(waiting := s.waiting - {batch[k]}), Elems(batch[k + 1..]) + Elems(pending));
  }

  lemma BatchKnown(t: Target, opts: Options, known0: Functions, evidence0: set<Addr>, s: State, batch: seq<Addr>, k: nat,
                   pending: seq<Addr>, raw: RawCfg, more: set<Addr>, queued: seq<Addr>)
    requires Ascending(batch) && k < |batch| && raw.blocks != [] && WalkedBy(t, opts.caps, batch[k], raw, s.evidence)
    requires Batching(t, opts, known0, evidence0, s, batch[k..], pending)
    requires more == Widened(t, opts, s.evidence, raw) && Elems(queued) == Elems(pending) + (more - s.evidence)
    ensures Batching(t, opts, known0, evidence0,
                     Standing(s.known[batch[k] := raw], more, batch[k + 1..], queued), batch[k + 1..], queued)
  {
    OnwardKnown(State(known0, evidence0, {}), s, batch, k, pending, raw, more, queued);
    SettleKnown(t, opts, s, batch[k], raw, more);
    EvidenceWaits(t, opts, s);
    StillWaiting(t, opts, State(s.known[batch[k] := raw], more, s.waiting - {batch[k]} + (more - s.evidence)),
                 Elems(batch[k + 1..]) + Elems(queued));
  }

  lemma EvidenceWaits(t: Target, opts: Options, s: State)
    requires Accounted(t, opts, s)
    ensures s.waiting <= s.evidence
  {
  }

  lemma SeedIsNew(t: Target, opts: Options, known0: Functions, evidence0: set<Addr>, s: State, batch: seq<Addr>, k: nat,
                  pending: seq<Addr>)
    requires k < |batch| && Batching(t, opts, known0, evidence0, s, batch[k..], pending)
    ensures batch[k] in s.evidence && batch[k] !in s.known
  {
    EvidenceWaits(t, opts, s);
    assert batch[k..][0] == batch[k];
    assert batch[k] in Elems(batch[k..]);
  }

  /** What a walk's calls do to the evidence and the queue. */
  method TakeCalls(t: Target, opts: Options, raw: RawCfg, evidence: set<Addr>, pending: seq<Addr>)
    returns (more: set<Addr>, queued: seq<Addr>)
    ensures more == Widened(t, opts, evidence, raw)
    ensures Elems(queued) == Elems(pending) + (more - evidence)
  {
    more, queued := evidence, pending;
    if opts.followCalls {
      more, queued := QueueCalls(t, raw.calls, evidence, pending);
      assert more - evidence == raw.calls * t.p.exec - evidence;
    }
  }

  /** A known function's executable call, when calls are followed. */
  ghost predicate Gives(t: Target, opts: Options, known: Functions, f: Addr, c: Addr) {
    opts.followCalls && f in known && c in known[f].calls && c in t.p.exec
  }

  /** What a round has added so far: walks of `waiting` that were told to stop at the
      evidence the round began with, and evidence for what they call, no more. */
  ghost predicate Fresh(t: Target, opts: Options, start: State, known: Functions, evidence: set<Addr>) {
    match start
    case State(known0, evidence0, waiting) =>
      (forall a :: a in known && a !in known0 ==> a in waiting && From(Job(t.p, a, evidence0, {}, {}), opts.caps, known[a])) &&
      (forall c :: c in evidence <==> c in evidence0 || GivenBy(t, opts, start, known, c))
  }

  /** Some function the round added calls it. */
  ghost predicate GivenBy(t: Target, opts: Options, start: State, known: Functions, c: Addr) {
    exists f :: f !in start.known && Gives(t, opts, known, f, c)
  }

  lemma FreshStart(t: Target, opts: Options, start: State)
    ensures Fresh(t, opts, start, start.known, start.evidence)
  {
  }

  lemma FreshKnown(t: Target, opts: Options, start: State, known: Functions, evidence: set<Addr>, a: Addr, raw: RawCfg)
    requires Fresh(t, opts, start, known, evidence) && a !in known && a !in start.known && a in start.waiting
    requires From(Job(t.p, a, start.evidence, {}, {}), opts.caps, raw)
    ensures Fresh(t, opts, start, known[a := raw], Widened(t, opts, evidence, raw))
  {
    var more := known[a := raw];
    forall c: Addr ensures c in Widened(t, opts, evidence, raw) <==> c in start.evidence || GivenBy(t, opts, start, more, c) {
      FreshEvidence(t, opts, start, known, evidence, c);
      GivesMore(t, opts, start, known, a, raw, c);
    }
    forall x | x in more && x !in start.known
      ensures x in start.waiting && From(Job(t.p, x, start.evidence, {}, {}), opts.caps, more[x])
    {
      FreshWalked(t, opts, start, known, evidence, a, raw, x);
    }
  }

  lemma FreshEvidence(t: Target, opts: Options, start: State, known: Functions, evidence: set<Addr>, c: Addr)
    requires Fresh(t, opts, start, known, evidence)
    ensures c in evidence <==> c in start.evidence || GivenBy(t, opts, start, known, c)
  {
  }

  lemma FreshWalked(t: Target, opts: Options, start: State, known: Functions, evidence: set<Addr>, a: Addr, raw: RawCfg, x: Addr)
    requires Fresh(t, opts, start, known, evidence) && x in known[a := raw] && x !in start.known
    requires a in start.waiting && From(Job(t.p, a, start.evidence, {}, {}), opts.caps, raw)
    ensures x in start.waiting && From(Job(t.p, x, start.evidence, {}, {}), opts.caps, known[a := raw][x])
  {
  }

  lemma GivesMore(t: Target, opts: Options, start: State, known: Functions, a: Addr, raw: RawCfg, c: Addr)
    requires a !in known && a !in start.known
    ensures GivenBy(t, opts, start, known[a := raw], c) <==>
      GivenBy(t, opts, start, known, c) || (opts.followCalls && c in raw.calls && c in t.p.exec)
  {
    var more := known[a := raw];
    if f :| f !in start.known && Gives(t, opts, known, f, c) {
      assert Gives(t, opts, more, f, c);
    }
    if opts.followCalls && c in raw.calls && c in t.p.exec {
      assert Gives(t, opts, more, a, c);
    }
  }

  /** Walk one seed and file what it gives. */
  method WalkSeed(t: Target, opts: Options, batch: seq<Addr>, k: nat, known0: Functions, evidence0: set<Addr>,
                  known: Functions, evidence: set<Addr>, pending: seq<Addr>, ghost seeds: set<Addr>)
    returns (more: Functions, seen: set<Addr>, queued: seq<Addr>)
    requires t.p.Valid() && Ascending(batch) && k < |batch|
    requires Batching(t, opts, known0, evidence0, Standing(known, evidence, batch[k..], pending), batch[k..], pending)
    requires Grounded(t, opts, seeds, known, evidence)
    requires Fresh(t, opts, State(known0, evidence0, Elems(batch)), known, evidence) && batch[k] !in known0
    ensures Grounded(t, opts, seeds, more, seen)
    ensures Fresh(t, opts, State(known0, evidence0, Elems(batch)), more, seen)
    ensures Batching(t, opts, known0, evidence0, Standing(more, seen, batch[k + 1..], queued), batch[k + 1..], queued)
  {
    ghost var s := Standing(known, evidence, batch[k..], pending);
    more, seen, queued := known, evidence, pending;
    var raw := WalkOne(t, opts, batch[k], evidence0, {});
    if raw.blocks == [] {
      BatchBarren(t, opts, known0, evidence0, s, batch, k, pending);
      return;
    }
    seen, queued := TakeCalls(t, opts, raw, evidence, pending);
    SeedIsNew(t, opts, known0, evidence0, s, batch, k, pending);
    GroundedStep(t, opts, seeds, known, evidence, batch[k], raw);
    WalkedByGrows(t, opts.caps, batch[k], raw, evidence0, evidence);
    FreshKnown(t, opts, State(known0, evidence0, Elems(batch)), known, evidence, batch[k], raw);
    BatchKnown(t, opts, known0, evidence0, s, batch, k, pending, raw, seen, queued);
    more := known[batch[k] := raw];
  }

  /** Walk one batch of seeds that are not known yet, in address order. */
  method WalkBatch(t: Target, opts: Options, batch: seq<Addr>, known0: Functions, evidence0: set<Addr>,
                   ghost seeds: set<Addr>)
    returns (known: Functions, evidence: set<Addr>, pending: seq<Addr>)
    requires t.p.Valid() && Ascending(batch) && (forall a :: a in batch ==> a !in known0)
    requires Accounted(t, opts, State(known0, evidence0, Elems(batch)))
    requires Grounded(t, opts, seeds, known0, evidence0)
    ensures Grounded(t, opts, seeds, known, evidence)
    ensures Fresh(t, opts, State(known0, evidence0, Elems(batch)), known, evidence)
    ensures Accounted(t, opts, State(known, evidence, Elems(pending)))
    ensures Extends(known0, known) && evidence0 <= evidence
    ensures Elems(pending) !! evidence0 && (pending != [] ==> evidence0 < evidence)
  {
    known, evidence, pending := known0, evidence0, [];
    FreshStart(t, opts, State(known0, evidence0, Elems(batch)));
    assert batch[0..] == batch && Elems(batch) + Elems(pending) == Elems(batch);
    for k := 0 to |batch|
      invariant Batching(t, opts, known0, evidence0, Standing(known, evidence, batch[k..], pending), batch[k..], pending)
      invariant Grounded(t, opts, seeds, known, evidence)
      invariant Fresh(t, opts, State(known0, evidence0, Elems(batch)), known, evidence)
    {
      assert batch[k] in batch;
      known, evidence, pending := WalkSeed(t, opts, batch, k, known0, evidence0, known, evidence, pending, seeds);
    }
    assert Elems(batch[|batch|..]) + Elems(pending) == Elems(pending);
    assert pending != [] ==> pending[0] in Elems(pending);
  }

  /** More may be waiting than has to be, as long as it has evidence. */
  lemma StillWaiting(t: Target, opts: Options, s: State, waiting: set<Addr>)
    requires Accounted(t, opts, s) && s.waiting <= waiting <= s.evidence
    ensures Accounted(t, opts, s.(waiting := waiting))
  {
  }

  lemma NextOfBatch(batch: seq<Addr>, k: nat)
    requires Ascending(batch) && k < |batch|
    ensures Elems(batch[k..]) == Elems(batch[k + 1..]) + {batch[k]} && batch[k] !in batch[k + 1..]
  {
    assert batch[k..] == [batch[k]] + batch[k + 1..];
  }

  /** Walk what is pending, once each, and give back what that queued. */
  method Round(t: Target, opts: Options, known0: Functions, evidence0: set<Addr>, pending0: seq<Addr>,
               ghost seeds: set<Addr>)
    returns (known: Functions, evidence: set<Addr>, pending: seq<Addr>)
    requires t.p.Valid() && Accounted(t, opts, State(known0, evidence0, Elems(pending0)))
    requires Grounded(t, opts, seeds, known0, evidence0)
    ensures Grounded(t, opts, seeds, known, evidence)
    ensures Fresh(t, opts, State(known0, evidence0, Elems(pending0)), known, evidence)
    ensures Accounted(t, opts, State(known, evidence, Elems(pending)))
    ensures Extends(known0, known) && evidence0 <= evidence
    ensures Elems(pending) !! evidence0 && (pending != [] ==> evidence0 < evidence)
  {
    var batch := SortDedup(Unknown(pending0, known0));
    forall a | a in batch ensures a !in known0 {
    }
    StillAccounted(t, opts, known0, evidence0, pending0, batch);
    known, evidence, pending := WalkBatch(t, opts, batch, known0, evidence0, seeds);
    FreshWider(t, opts, known0, evidence0, Elems(batch), Elems(pending0), known, evidence);
  }

  lemma FreshWider(t: Target, opts: Options, known0: Functions, evidence0: set<Addr>, few: set<Addr>, many: set<Addr>,
                   known: Functions, evidence: set<Addr>)
    requires Fresh(t, opts, State(known0, evidence0, few), known, evidence) && few <= many
    ensures Fresh(t, opts, State(known0, evidence0, many), known, evidence)
  {
    forall c: Addr ensures GivenBy(t, opts, State(known0, evidence0, few), known, c) <==>
      GivenBy(t, opts, State(known0, evidence0, many), known, c)
    {
    }
  }

  /** The seeds that are not known. */
  function Unknown(pending: seq<Addr>, known: Functions): (r: seq<Addr>)
    ensures forall a :: a in r <==> a in pending && a !in known
  {
    if pending == [] then [] else
    assert forall a :: a in pending <==> a == pending[0] || a in pending[1..];
    (if pending[0] in known then [] else [pending[0]]) + Unknown(pending[1..], known)
  }

  lemma StillAccounted(t: Target, opts: Options, known: Functions, evidence: set<Addr>, pending: seq<Addr>, batch: seq<Addr>)
    requires Accounted(t, opts, State(known, evidence, Elems(pending)))
    requires forall a :: a in batch <==> a in pending && a !in known
    ensures Accounted(t, opts, State(known, evidence, Elems(batch)))
  {
  }

  lemma SmallerSet(few: set<Addr>, many: set<Addr>)
    requires few < many
    ensures |few| < |many|
  {
    assert many == few + (many - few);
    assert many - few != {};
  }

  lemma NoSmaller(few: set<Addr>, many: set<Addr>)
    requires few <= many
    ensures |few| <= |many|
  {
    assert many == few + (many - few);
  }

  // -------------------------------------------------------------------- the sweep

  function RangesIn(blocks: seq<Block>): seq<Range> {
    seq(|blocks|, i requires 0 <= i < |blocks| => blocks[i].range)
  }

  /** The ranges of every block of every function. */
  function CodeRanges(known: Functions, order: seq<Addr>): seq<Range>
    requires forall a :: a in order ==> a in known
  {
    if order == [] then [] else RangesIn(known[order[0]].blocks) + CodeRanges(known, order[1..])
  }

  function Code(known: Functions): seq<Range> {
    CodeRanges(known, Sorted(known.Keys))
  }

  /** A region the functions prove holds the address, and meets none of their code. */
  ghost predicate ProofAt(t: Target, opts: Options, known: Functions, r: D.Region, a: Addr) {
    opts.data && t.arch.AArch64? && r in t.proofs(known) && Ranges.Holds(r.range, a) && !D.Meets(r.range, Code(known))
  }

  /** The data the sweep keeps out of: what the functions prove, where the target's
      gaps are swept at all. */
  ghost predicate Proved(t: Target, opts: Options, known: Functions, data: D.DataMap) {
    data.Valid() && forall a: Addr :: data.Contains(a) <==> exists r :: ProofAt(t, opts, known, r, a)
  }

  method ProvedData(t: Target, opts: Options, known: Functions) returns (data: D.DataMap)
    ensures Proved(t, opts, known, data)
  {
    if opts.data && t.arch.AArch64? {
      var code := MergeRanges(Code(known));
      data := D.Assemble(t.proofs(known), code);
      ProvedAre(t, opts, known, data, code);
    } else {
      data := D.DataMap([], [], 0);
      forall a: Addr ensures !data.Contains(a) {
        D.ContainsIff(data, a);
      }
    }
  }

  lemma ProvedAre(t: Target, opts: Options, known: Functions, data: D.DataMap, code: seq<Range>)
    requires opts.data && t.arch.AArch64? && data.Valid()
    requires forall a: Addr :: Covers(code, a) <==> Covers(Code(known), a)
    requires forall r :: r in data.regions <==> r in t.proofs(known) && !Empty(r.range) && !D.Meets(r.range, code)
    ensures Proved(t, opts, known, data)
  {
    forall a: Addr ensures data.Contains(a) <==> exists r :: ProofAt(t, opts, known, r, a) {
      D.ContainsIff(data, a);
      ProvedAt(t, opts, known, data, code, a);
    }
  }

  lemma ProvedAt(t: Target, opts: Options, known: Functions, data: D.DataMap, code: seq<Range>, a: Addr)
    requires opts.data && t.arch.AArch64?
    requires forall a: Addr :: Covers(code, a) <==> Covers(Code(known), a)
    requires forall r :: r in data.regions <==> r in t.proofs(known) && !Empty(r.range) && !D.Meets(r.range, code)
    ensures data.Marked(a) <==> exists r :: ProofAt(t, opts, known, r, a)
  {
    if data.Marked(a) {
      var i :| 0 <= i < |data.regions| && Ranges.Holds(data.regions[i].range, a);
      assert data.regions[i] in data.regions;
      assert ProofAt(t, opts, known, data.regions[i], a);
    }
    if r :| ProofAt(t, opts, known, r, a) {
      assert r in data.regions;
      var i :| 0 <= i < |data.regions| && data.regions[i] == r;
    }
  }

  /** Walk the sweep's guesses, without following what they call. A guess outside
      the data that does not become a function decodes nowhere. */
  method WalkPending(t: Target, opts: Options, known0: Functions, evidence: set<Addr>, pending: seq<Addr>, data: D.DataMap)
    returns (known: Functions)
    requires t.p.Valid() && AllWalked(t, opts, known0, evidence)
    ensures AllWalked(t, opts, known, evidence) && Grown(known0, known, pending)
    ensures SweptFrom(t, opts, known0, known, evidence, data)
    ensures forall a :: a in pending && !data.Contains(a) ==> a in known || Barren(t, opts, a)
  {
    var batch := SortDedup(pending);
    var proved := DataIn(t, data);
    known := known0;
    for k := 0 to |batch|
      invariant Swept(t, opts, known0, known, evidence, pending, data, batch[..k])
      invariant SweptFrom(t, opts, known0, known, evidence, data)
    {
      var a := batch[k];
      if a in known {
        SweptOver(t, opts, known0, known, evidence, pending, data, batch, k);
      } else {
        var raw := WalkOne(t, opts, a, evidence, proved);
        if raw.blocks != [] {
          assert a in batch;
          SweptOn(t, opts, known0, known, evidence, pending, data, batch, k, raw);
          SweptFromStep(t, opts, known0, known, evidence, data, a, raw);
          known := known[a := raw];
        } else {
          SweptOver(t, opts, known0, known, evidence, pending, data, batch, k);
        }
      }
    }
    SweptAll(t, opts, known0, known, evidence, pending, data, batch);
  }

  /** The instructions that are data. */
  function DataIn(t: Target, data: D.DataMap): set<Addr> {
    set a | a in t.p.code && data.Contains(a)
  }

  /** Whatever was added is a walk told to stop at all the evidence, that knows the
      data. */
  ghost predicate SweptFrom(t: Target, opts: Options, known0: Functions, known: Functions, evidence: set<Addr>, data: D.DataMap) {
    forall a :: a in known && a !in known0 ==> From(Job(t.p, a, evidence, {}, DataIn(t, data)), opts.caps, known[a])
  }

  lemma SweptFromStep(t: Target, opts: Options, known0: Functions, known: Functions, evidence: set<Addr>, data: D.DataMap,
                      a: Addr, raw: RawCfg)
    requires SweptFrom(t, opts, known0, known, evidence, data)
    requires From(Job(t.p, a, evidence, {}, DataIn(t, data)), opts.caps, raw)
    ensures SweptFrom(t, opts, known0, known[a := raw], evidence, data)
  {
  }

  lemma SweptAll(t: Target, opts: Options, known0: Functions, known: Functions, evidence: set<Addr>, pending: seq<Addr>,
                 data: D.DataMap, batch: seq<Addr>)
    requires Swept(t, opts, known0, known, evidence, pending, data, batch[..|batch|]) && forall a :: a in pending ==> a in batch
    ensures forall a :: a in pending && !data.Contains(a) ==> a in known || Barren(t, opts, a)
  {
    assert batch[..|batch|] == batch;
  }

  /** After the guesses in `done`. */
  ghost predicate Swept(t: Target, opts: Options, known0: Functions, known: Functions, evidence: set<Addr>, pending: seq<Addr>,
                        data: D.DataMap, done: seq<Addr>) {
    AllWalked(t, opts, known, evidence) && Grown(known0, known, pending) && Filed(t, opts, known, data, Elems(done))
  }

  lemma SweptOver(t: Target, opts: Options, known0: Functions, known: Functions, evidence: set<Addr>, pending: seq<Addr>,
                  data: D.DataMap, batch: seq<Addr>, k: nat)
    requires k < |batch| && Swept(t, opts, known0, known, evidence, pending, data, batch[..k])
    requires data.Contains(batch[k]) || batch[k] in known || Barren(t, opts, batch[k])
    ensures Swept(t, opts, known0, known, evidence, pending, data, batch[..k + 1])
  {
    TakeOneMore(batch, k);
  }

  lemma SweptOn(t: Target, opts: Options, known0: Functions, known: Functions, evidence: set<Addr>, pending: seq<Addr>,
                data: D.DataMap, batch: seq<Addr>, k: nat, raw: RawCfg)
    requires k < |batch| && Swept(t, opts, known0, known, evidence, pending, data, batch[..k])
    requires batch[k] in pending && batch[k] !in known && raw.blocks != [] && Walked(t, opts.caps, batch[k], raw, evidence)
    ensures Swept(t, opts, known0, known[batch[k] := raw], evidence, pending, data, batch[..k + 1])
  {
    AddWalked(t, opts, known, evidence, batch[k], raw);
    GrowOne(known0, known, pending, batch[k], raw);
    TakeOneMore(batch, k);
  }

  /** Every guess outside the data is a function or decodes nowhere. */
  ghost predicate Filed(t: Target, opts: Options, known: Functions, data: D.DataMap, guesses: set<Addr>) {
    forall a :: a in guesses && !data.Contains(a) ==> a in known || Barren(t, opts, a)
  }

  /** Nothing known has changed, and what was added comes from the seeds. */
  ghost predicate Grown(known0: Functions, known: Functions, pending: seq<Addr>) {
    Extends(known0, known) && forall a :: a in known && a !in known0 ==> a in pending
  }

  lemma AddWalked(t: Target, opts: Options, known: Functions, stops: set<Addr>, a: Addr, raw: RawCfg)
    requires AllWalked(t, opts, known, stops) && raw.blocks != [] && Walked(t, opts.caps, a, raw, stops)
    ensures AllWalked(t, opts, known[a := raw], stops)
  {
    var more := known[a := raw];
    forall x | x in more ensures more[x].blocks != [] && Walked(t, opts.caps, x, more[x], stops) {
      if x != a {
        StillWalked(t, opts, known, stops, x);
        assert more[x] == known[x];
      }
    }
  }

  lemma StillWalked(t: Target, opts: Options, known: Functions, stops: set<Addr>, x: Addr)
    requires AllWalked(t, opts, known, stops) && x in known
    ensures known[x].blocks != [] && Walked(t, opts.caps, x, known[x], stops)
  {
  }

  lemma GrowOne(known0: Functions, known: Functions, pending: seq<Addr>, a: Addr, raw: RawCfg)
    requires Grown(known0, known, pending) && a in pending && a !in known
    ensures Grown(known0, known[a := raw], pending)
  {
  }

  // -------------------------------------------------------------------- discovery

  /** The executable hints a loader gives. */
  function Seeds(t: Target, hints: seq<Addr>): (r: seq<Addr>)
    ensures forall a :: a in r <==> a in hints && a in t.p.exec
  {
    if hints == [] then [] else
    assert forall a :: a in hints <==> a == hints[0] || a in hints[1..];
    (if hints[0] in t.p.exec then [hints[0]] else []) + Seeds(t, hints[1..])
  }

  /** The evidence has been followed to the end: every executable address with
      evidence is a function or gives no blocks, and every executable address a
      function calls has evidence. */
  ghost predicate Settled(t: Target, opts: Options, led: Functions, evidence: set<Addr>) {
    Accounted(t, opts, State(led, evidence, {}))
  }

  /** What the sweep added: each opens with a prologue in executable memory
      outside every block of the functions evidence led to. */
  ghost predicate Guessed(t: Target, led: Functions, known: Functions) {
    forall a :: a in known && a !in led ==> GuessAt(t, led, a)
  }

  ghost predicate GuessAt(t: Target, led: Functions, a: Addr) {
    InExec(t.segments, a) && !Covers(Code(led), a) && t.prologue(a)
  }

  /** Every function is what some walk from its entry gives, and what a walk was
      told to stop at is a function or decodes nowhere. */
  ghost predicate Upheld(t: Target, opts: Options, known: Functions, stops: set<Addr>) {
    AllWalked(t, opts, known, stops) && forall a :: a in stops ==> a in known || Barren(t, opts, a)
  }

  /** The one sweep, when nothing is left to follow. */
  method WalkGaps(t: Target, opts: Options, led: Functions, evidence: set<Addr>)
    returns (known: Functions, ghost stops: set<Addr>, ghost sweep: Sweeping)
    requires t.p.Valid() && Settled(t, opts, led, evidence)
    ensures Upheld(t, opts, known, stops) && Extends(led, known) && Guessed(t, led, known)
    ensures SweptAs(t, opts, led, evidence, known, sweep)
  {
    LedWalked(t, opts, led, evidence);
    known, stops := led, evidence;
    var data := ProvedData(t, opts, led);
    var found;
    ghost var hits;
    found, hits := Guesses(t, opts, led, data);
    sweep := Sweeping(data, found, hits);
    if found != [] {
      var told := evidence + (set a | a in found);
      stops := told;
      MoreWalked(t, opts, led, evidence, told);
      known := WalkPending(t, opts, led, told, found, data);
      SweepUpheld(t, opts, led, known, evidence, found);
      assert told == evidence + Elems(found);
    }
  }

  /** The data a sweep kept out of, what it found, and how many before duplicates
      were dropped. */
  datatype Sweeping = Sweeping(data: D.DataMap, found: seq<Addr>, hits: nat)

  /** What the sweep finds: candidates, and every one on the grid of an aligned image
      unless there were more than the cap allows. */
  ghost predicate Scanned(t: Target, opts: Options, led: Functions, s: Sweeping) {
    match Stride(t.arch)
    case None => s.found == []
    case Some(step) =>
      var w := Sweep(step, s.data, t.prologue);
      (forall a :: a in s.found ==> Candidate(w, t.segments, Code(led), a)) &&
      (Aligned(t.segments, Code(led), step) && s.hits <= opts.caps.functionBlocks ==>
         Gaps.Complete(w, t.segments, Code(led), s.found)) &&
      (Apart(t.segments) ==> s.hits == |s.found|)
  }

  /** The sweep's part: what it finds outside the proved data is walked, stopping at
      all evidence and all it found, and becomes a function unless nothing decodes. */
  ghost predicate SweptAs(t: Target, opts: Options, led: Functions, evidence: set<Addr>, known: Functions, s: Sweeping) {
    Proved(t, opts, led, s.data) && Scanned(t, opts, led, s) && Grown(led, known, s.found) &&
    SweptFrom(t, opts, led, known, evidence + Elems(s.found), s.data) &&
    forall a :: a in s.found ==> a in known || Barren(t, opts, a)
  }

  /** Where the sweep finds prologues. */
  method Guesses(t: Target, opts: Options, led: Functions, data: D.DataMap) returns (found: seq<Addr>, ghost hits: nat)
    requires data.Valid()
    ensures Scanned(t, opts, led, Sweeping(data, found, hits))
    ensures forall a :: a in found ==> GuessAt(t, led, a) && !data.Contains(a)
  {
    found, hits := ScanGaps(t.arch, t.segments, Code(led), data, t.prologue, opts.caps.functionBlocks);
    forall a | a in found ensures !data.Contains(a) {
      D.ContainsIff(data, a);
    }
  }

  lemma SweepUpheld(t: Target, opts: Options, led: Functions, known: Functions, evidence: set<Addr>, found: seq<Addr>)
    requires Settled(t, opts, led, evidence) && Extends(led, known)
    requires forall a :: a in found ==> a in known || Barren(t, opts, a)
    ensures forall a :: a in evidence + (set x | x in found) ==> a in known || Barren(t, opts, a)
  {
  }

  /** The address gained evidence at this point of the log. */
  ghost predicate FirstIn(log: seq<set<Addr>>, a: Addr, r: nat) {
    r < |log| && a in log[r] && (r > 0 ==> a !in log[r - 1])
  }

  /** The function is what a walk gives that is told to stop at the evidence the
      round began with in which the function was new. */
  ghost predicate WalkedIn(t: Target, opts: Options, known: Functions, log: seq<set<Addr>>, f: Addr, r: nat) {
    f in known && r + 1 < |log| && FirstIn(log, f, r) && From(Job(t.p, f, log[r], {}, {}), opts.caps, known[f])
  }

  /** A function that was new in this round calls it. */
  ghost predicate GivenIn(t: Target, opts: Options, known: Functions, log: seq<set<Addr>>, r: nat, c: Addr) {
    exists f :: FirstIn(log, f, r) && Gives(t, opts, known, f, c)
  }

  /** This entry of the log is the one before and what the functions new there call. */
  ghost predicate Widens(t: Target, opts: Options, known: Functions, log: seq<set<Addr>>, r: nat) {
    match t
    case Target(_, _, _, _, _) =>
      r + 1 < |log| && forall c :: c in log[r + 1] <==> c in log[r] || GivenIn(t, opts, known, log, r, c)
  }

  ghost predicate Rising(log: seq<set<Addr>>) {
    log != [] && forall r, s :: 0 <= r <= s < |log| ==> log[r] <= log[s]
  }

  ghost predicate SomeRound(t: Target, opts: Options, known: Functions, log: seq<set<Addr>>, f: Addr) {
    exists r :: WalkedIn(t, opts, known, log, f, r)
  }

  /** The log of the evidence each round began with: it grows by exactly what the
      functions new in the round call, and every function was walked in its round. */
  ghost predicate Layered(t: Target, opts: Options, known: Functions, log: seq<set<Addr>>) {
    match t
    case Target(_, _, _, _, _) =>
      (Rising(log) && (forall f :: f in known ==> SomeRound(t, opts, known, log, f)) &&
       (forall r: nat :: r + 1 < |log| ==> Widens(t, opts, known, log, r)))
  }

  /** What waits gained evidence in the last round. */
  ghost predicate Lately(log: seq<set<Addr>>, seen: set<Addr>, waiting: set<Addr>) {
    log != [] && log[|log| - 1] == seen && forall a :: a in waiting ==> FirstIn(log, a, |log| - 1)
  }

  /** What has evidence in one round is not new in a later one. */
  lemma NotNewLater(log: seq<set<Addr>>, a: Addr, r: nat, s: nat)
    requires Rising(log) && r < s < |log| && a in log[r]
    ensures !FirstIn(log, a, s)
  {
    assert log[r] <= log[s - 1];
  }

  lemma RisingStep(log: seq<set<Addr>>, seen: set<Addr>)
    requires Rising(log) && log[|log| - 1] <= seen
    ensures Rising(log + [seen])
  {
    forall r, s | 0 <= r <= s < |log| + 1 ensures (log + [seen])[r] <= (log + [seen])[s] {
      if r < |log| {
        assert log[r] <= log[|log| - 1];
      }
    }
  }

  /** A round's worth of walks is one more entry in the log. */
  lemma LayerStep(t: Target, opts: Options, known0: Functions, log: seq<set<Addr>>, known: Functions, seen: set<Addr>,
                  waiting: set<Addr>)
    requires Layered(t, opts, known0, log) && Extends(known0, known)
    requires Lately(log, log[|log| - 1], waiting) && Fresh(t, opts, State(known0, log[|log| - 1], waiting), known, seen)
    ensures Layered(t, opts, known, log + [seen])
  {
    var more := log + [seen];
    RisingStep(log, seen);
    forall f | f in known ensures SomeRound(t, opts, known, more, f) {
      if f in known0 {
        OldWalked(t, opts, known0, log, known, seen, f);
      } else {
        assert WalkedIn(t, opts, known, more, f, |log| - 1);
      }
    }
    forall r: nat | r + 1 < |more| ensures Widens(t, opts, known, more, r) {
      if r + 1 < |log| {
        OldWidens(t, opts, known0, log, known, seen, waiting, r);
      } else {
        NewWidens(t, opts, known0, log, known, seen, waiting, r);
      }
    }
  }

  lemma OldWalked(t: Target, opts: Options, known0: Functions, log: seq<set<Addr>>, known: Functions, seen: set<Addr>, f: Addr)
    requires SomeRound(t, opts, known0, log, f) && Extends(known0, known)
    ensures SomeRound(t, opts, known, log + [seen], f)
  {
    var r :| WalkedIn(t, opts, known0, log, f, r);
    assert WalkedIn(t, opts, known, log + [seen], f, r);
  }

  lemma OldWidens(t: Target, opts: Options, known0: Functions, log: seq<set<Addr>>, known: Functions, seen: set<Addr>,
                  waiting: set<Addr>, r: nat)
    requires Widens(t, opts, known0, log, r) && Rising(log) && Extends(known0, known)
    requires Lately(log, log[|log| - 1], waiting) && forall a :: a in known && a !in known0 ==> a in waiting
    ensures Widens(t, opts, known, log + [seen], r)
  {
    var more := log + [seen];
    forall c ensures GivenIn(t, opts, known0, log, r, c) <==> GivenIn(t, opts, known, more, r, c) {
      if f :| FirstIn(log, f, r) && Gives(t, opts, known0, f, c) {
        assert FirstIn(more, f, r) && Gives(t, opts, known, f, c);
      }
      if f :| FirstIn(more, f, r) && Gives(t, opts, known, f, c) {
        assert FirstIn(log, f, r);
        NotNewLater(log, f, r, |log| - 1);
        assert Gives(t, opts, known0, f, c);
      }
    }
  }

  lemma NewWidens(t: Target, opts: Options, known0: Functions, log: seq<set<Addr>>, known: Functions, seen: set<Addr>,
                  waiting: set<Addr>, r: nat)
    requires Rising(log) && r + 1 == |log| && forall f :: f in known0 ==> SomeRound(t, opts, known0, log, f)
    requires Lately(log, log[r], waiting) && Fresh(t, opts, State(known0, log[r], waiting), known, seen)
    ensures Widens(t, opts, known, log + [seen], r)
  {
    var more, start := log + [seen], State(known0, log[r], waiting);
    forall f | f in known0 ensures !FirstIn(log, f, r) {
      KnownNotNew(t, opts, known0, log, f, r);
    }
    forall c ensures GivenBy(t, opts, start, known, c) <==> GivenIn(t, opts, known, more, r, c) {
      if f :| f !in known0 && Gives(t, opts, known, f, c) {
        assert FirstIn(log, f, r) && FirstIn(more, f, r);
      }
      if f :| FirstIn(more, f, r) && Gives(t, opts, known, f, c) {
        assert FirstIn(log, f, r);
      }
    }
  }

  lemma KnownNotNew(t: Target, opts: Options, known0: Functions, log: seq<set<Addr>>, f: Addr, r: nat)
    requires Rising(log) && r + 1 == |log| && SomeRound(t, opts, known0, log, f)
    ensures !FirstIn(log, f, r)
  {
    var s :| WalkedIn(t, opts, known0, log, f, s);
    NotNewLater(log, f, s, r);
  }

  lemma LatelyStep(log: seq<set<Addr>>, seen: set<Addr>, pending: set<Addr>)
    requires log != [] && pending !! log[|log| - 1] && pending <= seen
    ensures Lately(log + [seen], seen, pending)
  {
  }

  /** How a result came about: the functions evidence led to, the evidence, what some
      walk was told to stop at, the evidence each round began with, and the sweep. */
  datatype Account = Account(led: Functions, evidence: set<Addr>, stops: set<Addr>, log: seq<set<Addr>>, sweep: Sweeping)

  /** What discovery gives. */
  ghost predicate Discovered(t: Target, opts: Options, hints: seq<Addr>, known: Functions, rounds: nat, why: Account) {
    match why
    case Account(led, evidence, stops, log, sweep) =>
      (Settled(t, opts, led, evidence) && Grounded(t, opts, Elems(Seeds(t, hints)), led, evidence) &&
       Layered(t, opts, led, log) && log[0] == Elems(Seeds(t, hints)) && log[|log| - 1] == evidence && |log| == rounds + 1 &&
       rounds <= |t.p.exec| && Upheld(t, opts, known, stops) && Extends(led, known) && Guessed(t, led, known) &&
       if opts.scanGaps && rounds > 0 then SweptAs(t, opts, led, evidence, known, sweep) else known == led)
  }

  method Discover(t: Target, opts: Options, hints: seq<Addr>) returns (known: Functions, rounds: nat, ghost why: Account)
    requires t.p.Valid()
    ensures Discovered(t, opts, hints, known, rounds, why)
  {
    var pending := Seeds(t, hints);
    var seen: set<Addr> := set a | a in pending;
    known, rounds := map[], 0;
    ghost var seeds, log := Elems(pending), [seen];
    GoingStarts(t, opts, pending, seen);
    while pending != []
      invariant Going(t, opts, seeds, State(known, seen, Elems(pending)), rounds, log)
      invariant opts.scanGaps && rounds > 0 ==> pending != []
      decreases Ahead(t, State(known, seen, Elems(pending)))
    {
      ghost var was := State(known, seen, Elems(pending));
      rounds := rounds + 1;
      SeenWithin(t, opts, seeds, was, rounds - 1, log);
      Waits(pending);
      known, seen, pending := Round(t, opts, known, seen, pending, seeds);
      Waits(pending);
      GoesOnRound(t, opts, seeds, was, State(known, seen, Elems(pending)), rounds, log);
      log := log + [seen];
      if pending == [] && opts.scanGaps {
        ghost var led := known;
        ghost var stops, sweep;
        GoingEnds(t, opts, seeds, State(led, seen, Elems(pending)), rounds, log);
        known, stops, sweep := WalkGaps(t, opts, known, seen);
        why := Account(led, seen, stops, log, sweep);
        return;
      }
    }
    why := Account(known, seen, seen, log, Sweeping(D.DataMap([], [], 0), [], 0));
    GoingEnds(t, opts, seeds, State(known, seen, Elems(pending)), rounds, log);
  }

  /** Between rounds. */
  ghost predicate Going(t: Target, opts: Options, seeds: set<Addr>, s: State, rounds: nat, log: seq<set<Addr>>) {
    match s
    case State(known, seen, waiting) =>
      (Accounted(t, opts, s) && Grounded(t, opts, seeds, known, seen) &&
       Layered(t, opts, known, log) && log[0] == seeds && Lately(log, seen, waiting) && |log| == rounds + 1 &&
       rounds + (if waiting != {} then 1 else 0) <= |seen|)
  }

  lemma GoingStarts(t: Target, opts: Options, pending: seq<Addr>, seen: set<Addr>)
    requires (forall a :: a in pending ==> a in t.p.exec) && seen == set a | a in pending
    ensures Going(t, opts, Elems(pending), State(map[], seen, Elems(pending)), 0, [seen])
  {
    assert Elems(pending) == seen;
    assert Layered(t, opts, map[], [seen]);
    if pending != [] {
      assert pending[0] in seen;
    }
  }

  lemma SeenWithin(t: Target, opts: Options, seeds: set<Addr>, s: State, rounds: nat, log: seq<set<Addr>>)
    requires Going(t, opts, seeds, s, rounds, log)
    ensures Accounted(t, opts, s) && Grounded(t, opts, seeds, s.known, s.evidence) && Ahead(t, s) >= 0
  {
    NoSmaller(s.evidence, t.p.exec);
  }

  /** How much evidence is still to come, and whether anything waits. */
  ghost function Ahead(t: Target, s: State): int {
    |t.p.exec| - |s.evidence| + if s.waiting == {} then 0 else 1
  }

  lemma Waits(pending: seq<Addr>)
    ensures Elems(pending) == {} <==> pending == []
  {
    if pending != [] {
      assert pending[0] in Elems(pending);
    }
  }

  lemma GoesOnRound(t: Target, opts: Options, seeds: set<Addr>, was: State, s: State, rounds: nat, log: seq<set<Addr>>)
    requires rounds > 0 && Going(t, opts, seeds, was, rounds - 1, log) && was.waiting != {}
    requires Grounded(t, opts, seeds, s.known, s.evidence) && Fresh(t, opts, was, s.known, s.evidence) && Accounted(t, opts, s)
    requires Extends(was.known, s.known) && s.waiting !! was.evidence && (s.waiting != {} ==> was.evidence < s.evidence)
    requires was.evidence <= s.evidence
    ensures Going(t, opts, seeds, s, rounds, log + [s.evidence])
    ensures Ahead(t, s) < Ahead(t, was)
  {
    LayerStep(t, opts, was.known, log, s.known, s.evidence, was.waiting);
    LatelyStep(log, s.evidence, s.waiting);
    NoSmaller(was.evidence, s.evidence);
    if s.waiting != {} {
      SmallerSet(was.evidence, s.evidence);
    }
  }

  lemma GoingEnds(t: Target, opts: Options, seeds: set<Addr>, s: State, rounds: nat, log: seq<set<Addr>>)
    requires Going(t, opts, seeds, s, rounds, log) && s.waiting == {}
    ensures Settled(t, opts, s.known, s.evidence) && Grounded(t, opts, seeds, s.known, s.evidence)
    ensures Layered(t, opts, s.known, log) && log[0] == seeds && log[|log| - 1] == s.evidence && |log| == rounds + 1
    ensures rounds <= |t.p.exec| && Upheld(t, opts, s.known, s.evidence)
  {
    LedWalked(t, opts, s.known, s.evidence);
    NoSmaller(s.evidence, t.p.exec);
  }

  lemma MoreWalked(t: Target, opts: Options, known: Functions, few: set<Addr>, many: set<Addr>)
    requires AllWalked(t, opts, known, few) && few <= many
    ensures AllWalked(t, opts, known, many)
  {
    forall a | a in known ensures known[a].blocks != [] && Walked(t, opts.caps, a, known[a], many) {
      WalkedGrows(t, opts.caps, a, known[a], few, many);
    }
  }

  ghost predicate HoldsHints(t: Target, hints: seq<Addr>, within: set<Addr>) {
    forall a :: a in hints && a in t.p.exec ==> a in within
  }

  /** The evidence is exactly the least set that holds the executable hints and, when
      calls are followed, the executable calls of the functions found in it. */
  lemma EvidenceIsLeast(t: Target, opts: Options, hints: seq<Addr>, led: Functions, evidence: set<Addr>)
    requires Settled(t, opts, led, evidence) && Grounded(t, opts, Elems(Seeds(t, hints)), led, evidence)
    ensures HoldsHints(t, hints, evidence) && HoldsCalls(t, opts, led, evidence)
    ensures forall within: set<Addr> :: HoldsHints(t, hints, within) && HoldsCalls(t, opts, led, within) ==> evidence <= within
  {
    forall within: set<Addr> ensures HoldsHints(t, hints, within) <==> Elems(Seeds(t, hints)) <= within {
      if HoldsHints(t, hints, within) {
        forall a | a in Elems(Seeds(t, hints)) ensures a in within {
        }
      }
      assert forall a :: a in hints && a in t.p.exec ==> a in Elems(Seeds(t, hints));
    }
    forall f | opts.followCalls && f in led && f in evidence ensures led[f].calls * t.p.exec <= evidence {
      forall c | c in led[f].calls * t.p.exec ensures c in evidence {
      }
    }
  }

  lemma WalkedDecodes(t: Target, opts: Options, a: Addr, raw: RawCfg, stops: set<Addr>)
    requires Walked(t, opts.caps, a, raw, stops) && raw.blocks != [] && opts.Roomy()
    ensures a in t.p.code
  {
    var job: Job, ends, bodies :| WalkOf(job, opts.caps, raw, ends, bodies) &&
      job.p == t.p && job.entry == a && job.noreturn == {} && job.stopAt <= stops;
    NoBlocksIff(job, opts.caps, raw, ends, bodies);
  }

  /** The functions found by evidence are exactly the addresses with evidence that
      decode. */
  lemma LedIff(t: Target, opts: Options, hints: seq<Addr>, led: Functions, evidence: set<Addr>, a: Addr)
    requires Settled(t, opts, led, evidence) && Grounded(t, opts, Elems(Seeds(t, hints)), led, evidence) && opts.Roomy()
    ensures a in led <==> a in evidence && a in t.p.code
  {
    if a in led {
      WalkedByGrows(t, opts.caps, a, led[a], evidence, evidence);
      WalkedDecodes(t, opts, a, led[a], evidence);
    }
  }

  /** The call-closure of discovery: an executable address that a function found
      by following evidence calls is itself a function, or nothing decodes there. */
  lemma CallsAreFunctions(t: Target, opts: Options, led: Functions, evidence: set<Addr>, f: Addr, c: Addr)
    requires Settled(t, opts, led, evidence) && opts.followCalls && opts.Roomy()
    requires f in led && c in led[f].calls && c in t.p.exec
    ensures c in led || c !in t.p.code
  {
  }

  /** So is every executable address a loader hinted at. */
  lemma HintsAreFunctions(t: Target, opts: Options, hints: seq<Addr>, led: Functions, evidence: set<Addr>, a: Addr)
    requires Settled(t, opts, led, evidence) && Grounded(t, opts, Elems(Seeds(t, hints)), led, evidence) && opts.Roomy()
    requires a in hints && a in t.p.exec
    ensures a in led || a !in t.p.code
  {
    EvidenceIsLeast(t, opts, hints, led, evidence);
  }

  /** Every block of every function tiles only instructions control can reach
      from that function's entry. */
  lemma FunctionsReach(t: Target, opts: Options, known: Functions, stops: set<Addr>, f: Addr, a: Addr)
    requires t.p.Valid() && AllWalked(t, opts, known, stops) && f in known && Tiles(t.p, known[f].blocks, a)
    ensures exists job: Job :: job.p == t.p && job.entry == f && job.Reachable(a) && job.Decodable(a)
  {
    var job: Job, ends, bodies :| WalkOf(job, opts.caps, known[f], ends, bodies) && job.p == t.p && job.entry == f;
    TilesOnlyReachable(job, opts.caps, known[f], ends, bodies, a);
  }
}
