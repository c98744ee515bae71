/** A run told by what its operations did: which calls and returns were taken, where
    each instruction was, and why the run ended (crates/e5r-api/src/emulate.rs). */
module History {
  import opened Ordered
  import opened Image
  import opened Emulate

  /** One instruction that was run: where, the machine before it, what each operation
      that ran did, and the machine after it. */
  datatype Visit<M> = Visit(at: Addr, start: M, dids: seq<Step>, end: M)

  // ------------------------------------------------------------------ one instruction

  /** The machine after so many operations. */
  ghost function After<M>(w: World<M>, m: M, ops: seq<IrOp>, n: nat): M
    requires n <= |ops|
  {
    if n == 0 then m else w.step(After(w, m, ops, n - 1), ops[n - 1]).0
  }

  /** What the operation at this place does. */
  ghost function Did<M>(w: World<M>, m: M, ops: seq<IrOp>, k: nat): Step
    requires k < |ops|
  {
    w.step(After(w, m, ops, k), ops[k]).1
  }

  /** The operations that ran did what the machine does with them, one after another,
      and the first that did anything but go on was the last to run. */
  ghost predicate Performed<M>(w: World<M>, m: M, ops: seq<IrOp>, dids: seq<Step>) {
    |dids| <= |ops| &&
    (forall k: nat :: k < |dids| ==> dids[k] == Did(w, m, ops, k)) &&
    (forall k: nat :: k + 1 < |dids| ==> dids[k] == Go) &&
    (|dids| < |ops| ==> dids != [] && dids[|dids| - 1] != Go)
  }

  /** What the last operation of an instruction did. */
  ghost function LastDid<M>(v: Visit<M>): Step {
    if v.dids == [] then Go else v.dids[|v.dids| - 1]
  }

  /** Why an operation ends the run, with so many frames open. */
  ghost function OpStops(setup: Setup, frames: int, op: IrOp, did: Step): Option<Ending> {
    match did
    case Go => None
    case Jump(t) => if op.indirect && setup.stopAtIndirect == Some(op.addr) then Some(Indirect(op.addr, t)) else None
    case CallTo(t) =>
      if op.indirect && setup.stopAtIndirect == Some(op.addr) then Some(Indirect(op.addr, t))
      else if frames == setup.depth then Some(Ending.Call(t))
      else None
    case Leave(_) => if frames == 0 then Some(Finished) else None
    case Unmodelled(a) => Some(Unimplemented(a))
    case ZeroDivide(a) => Some(DivideByZero(a))
  }

  /** Why a gate into the kernel ends the run. */
  ghost function GateStops<M>(w: World<M>, m: M, at: Addr, gate: Option<Gate>): Option<Ending> {
    match gate
    case None => None
    case Some(Foreign) => Some(Unimplemented(at))
    case Some(Linux) =>
      match w.serve(m, at).1
      case Returned(_) => None
      case Exited(status) => Some(Exit(status))
      case Refused(number) => Some(Ending.Syscall(at, number))
  }

  ghost function GateLeaves<M>(w: World<M>, m: M, at: Addr, gate: Option<Gate>): M {
    if gate == Some(Linux) then w.serve(m, at).0 else m
  }

  /** The operation that ran last, if one did. */
  ghost function LastOp<M>(w: World<M>, v: Visit<M>): Option<IrOp>
    requires v.at in w.code
  {
    if v.dids == [] || |v.dids| > |w.code[v.at].ops| then None else Some(w.code[v.at].ops[|v.dids| - 1])
  }

  /** Why its last operation ends the run, if it does. */
  ghost function StopsByOp<M>(w: World<M>, setup: Setup, frames: int, v: Visit<M>): Option<Ending>
    requires v.at in w.code
  {
    if LastOp(w, v).None? then None else OpStops(setup, frames, LastOp(w, v).value, LastDid(v))
  }

  /** Why the instruction ends the run, if it does: its last operation, or its gate. */
  ghost function Stops<M>(w: World<M>, setup: Setup, frames: int, v: Visit<M>): Option<Ending>
    requires v.at in w.code
  {
    var byOp := StopsByOp(w, setup, frames, v);
    if byOp.Some? || |v.dids| > |w.code[v.at].ops| then byOp
    else GateStops(w, After(w, v.start, w.code[v.at].ops, |v.dids|), v.at, w.code[v.at].gate)
  }

  /** The instruction was run as its code says; the gate is passed only when no
      operation ended the run. */
  ghost predicate Visited<M>(w: World<M>, setup: Setup, frames: int, v: Visit<M>) {
    v.at in w.code &&
    var insn := w.code[v.at];
    Performed(w, v.start, insn.ops, v.dids) &&
    var mid := After(w, v.start, insn.ops, |v.dids|);
    v.end == if StopsByOp(w, setup, frames, v).Some? then mid else GateLeaves(w, mid, v.at, insn.gate)
  }

  /** Where control is after it: at the target of a transfer, and otherwise at the next
      address. */
  ghost function Goes<M>(w: World<M>, v: Visit<M>): Addr
    requires v.at in w.code
  {
    match LastDid(v)
    case Jump(t) => t
    case CallTo(t) => t
    case Leave(t) => t
    case _ => v.at + w.code[v.at].len
  }

  // ------------------------------------------------------------------ sums over a history

  ghost function Calls<M>(vs: seq<Visit<M>>): nat {
    if vs == [] then 0 else (if LastDid(vs[0]).CallTo? then 1 else 0) + Calls(vs[1..])
  }

  ghost function Returns<M>(vs: seq<Visit<M>>): nat {
    if vs == [] then 0 else (if LastDid(vs[0]).Leave? then 1 else 0) + Returns(vs[1..])
  }

  ghost function OpsIn<M>(vs: seq<Visit<M>>): nat {
    if vs == [] then 0 else |vs[0].dids| + OpsIn(vs[1..])
  }

  /** The indirect jump or call an instruction made. */
  ghost function Transferred<M>(w: World<M>, v: Visit<M>): seq<Transfer>
    requires v.at in w.code
  {
    if LastOp(w, v).None? || !LastOp(w, v).value.indirect then [] else
    match LastDid(v)
    case Jump(t) => [Transfer(LastOp(w, v).value.addr, t, false)]
    case CallTo(t) => [Transfer(LastOp(w, v).value.addr, t, true)]
    case _ => []
  }

  ghost predicate InCode<M>(w: World<M>, vs: seq<Visit<M>>) {
    forall j :: 0 <= j < |vs| ==> vs[j].at in w.code
  }

  ghost function Transfers<M>(w: World<M>, vs: seq<Visit<M>>): seq<Transfer>
    requires InCode(w, vs)
  {
    if vs == [] then [] else Transferred(w, vs[0]) + Transfers(w, vs[1..])
  }

  /** Where the lifting was not complete. */
  ghost function NotLifted<M>(w: World<M>, v: Visit<M>): seq<Addr>
    requires v.at in w.code
  {
    if w.code[v.at].complete then [] else [v.at]
  }

  ghost function Unlifted<M>(w: World<M>, vs: seq<Visit<M>>): seq<Addr>
    requires InCode(w, vs)
  {
    if vs == [] then [] else NotLifted(w, vs[0]) + Unlifted(w, vs[1..])
  }

  /** The instructions that passed the gate into the kernel. */
  ghost function Served<M>(w: World<M>, vs: seq<Visit<M>>): nat
    requires InCode(w, vs)
  {
    if vs == [] then 0 else (if w.code[vs[0].at].gate == Some(Linux) then 1 else 0) + Served(w, vs[1..])
  }

  /** Frames open after so many instructions: calls taken less returns taken. */
  ghost function Level<M>(frames: nat, vs: seq<Visit<M>>, j: nat): int
    requires j <= |vs|
  {
    frames + Calls(vs[..j]) - Returns(vs[..j])
  }

  // ------------------------------------------------------------------ a run

  /** The history of a run from a state: the instructions follow one another, there was
      budget left for each, and none before the last ended the run. */
  ghost predicate Follows<M>(w: World<M>, setup: Setup, s: State<M>, vs: seq<Visit<M>>) {
    InCode(w, vs) &&
    (vs != [] ==> vs[0].at == s.pc && vs[0].start == s.m) &&
    (forall j: nat :: j < |vs| ==> RunAt(w, setup, s, vs, j)) && (forall j: nat :: j + 1 < |vs| ==> Next(w, setup, s, vs, j))
  }

  /** There was budget left, and the instruction was run as its code says. */
  ghost predicate RunAt<M>(w: World<M>, setup: Setup, s: State<M>, vs: seq<Visit<M>>, j: nat)
    requires j < |vs|
  {
    OpsIn(vs[..j]) < s.budget && Visited(w, setup, Level(s.frames, vs, j), vs[j])
  }

  /** The instruction did not end the run, and the next one is where control went. */
  ghost predicate Next<M>(w: World<M>, setup: Setup, s: State<M>, vs: seq<Visit<M>>, j: nat)
    requires j + 1 < |vs| && InCode(w, vs)
  {
    Stops(w, setup, Level(s.frames, vs, j), vs[j]) == None && vs[j + 1].at == Goes(w, vs[j]) && vs[j + 1].start == vs[j].end
  }

  /** What ended the run: its last instruction, or else no budget, or no code. */
  ghost predicate EndsFor<M>(w: World<M>, setup: Setup, s: State<M>, vs: seq<Visit<M>>, e: Ending)
    requires InCode(w, vs)
  {
    var n := |vs| - 1;
    if vs != [] && Stops(w, setup, Level(s.frames, vs, n), vs[n]).Some? then
      Some(e) == Stops(w, setup, Level(s.frames, vs, n), vs[n])
    else if OpsIn(vs) >= s.budget then e == OutOfBudget
    else
      var at := if vs == [] then s.pc else Goes(w, vs[n]);
      at !in w.code && e == NoCode(at)
  }

  /** How many of its instructions no operation ended: the calls and returns of these
      were taken. */
  ghost function Taken<M>(w: World<M>, setup: Setup, s: State<M>, vs: seq<Visit<M>>): (n: nat)
    requires InCode(w, vs)
    ensures n <= |vs|
  {
    if vs != [] && StopsByOp(w, setup, Level(s.frames, vs, |vs| - 1), vs[|vs| - 1]).Some? then |vs| - 1 else |vs|
  }

  /** What the run counted. */
  ghost predicate Counts<M>(w: World<M>, setup: Setup, s: State<M>, vs: seq<Visit<M>>, last: State<M>)
    requires InCode(w, vs)
  {
    last.insns == s.insns + |vs| && last.ops == s.ops + OpsIn(vs) && last.branches == s.branches + Transfers(w, vs) &&
    last.unlifted == s.unlifted + Unlifted(w, vs) && last.syscalls == s.syscalls + Served(w, vs[..Taken(w, setup, s, vs)]) &&
    last.frames == Level(s.frames, vs, Taken(w, setup, s, vs)) && last.m == (if vs == [] then s.m else vs[|vs| - 1].end)
  }

  ghost predicate Told<M>(w: World<M>, setup: Setup, s: State<M>, vs: seq<Visit<M>>, e: Ending, last: State<M>) {
    Follows(w, setup, s, vs) && EndsFor(w, setup, s, vs, e) && Counts(w, setup, s, vs, last)
  }

  // ------------------------------------------------------------------ an instruction's operations are told

  ghost function Less(budget: nat, n: nat): nat {
    if budget < n then 0 else budget - n
  }

  /** A state after so many operations that only went on. */
  ghost function Along<M>(w: World<M>, s: State<M>, ops: seq<IrOp>, n: nat): State<M>
    requires n <= |ops|
  {
    s.(m := After(w, s.m, ops, n), budget := Less(s.budget, n), ops := s.ops + n)
  }

  /** The indirect transfer an operation made. */
  ghost function Logs(op: IrOp, did: Step): seq<Transfer> {
    if !op.indirect then [] else
    match did
    case Jump(t) => [Transfer(op.addr, t, false)]
    case CallTo(t) => [Transfer(op.addr, t, true)]
    case _ => []
  }

  ghost function Target(did: Step, next: Addr): Addr {
    match did case Jump(t) => t case CallTo(t) => t case Leave(t) => t case _ => next
  }

  /** How an operation leaves the run: ended, or with the frame and the place it
      makes. */
  ghost predicate Leaves<M>(setup: Setup, base: State<M>, op: IrOp, did: Step, o: Outcome<M>) {
    match OpStops(setup, base.frames, op, did)
    case Some(e) =>
      o.Done? && o.ending == e && o.last == base.(insns := base.insns + 1, branches := base.branches + Logs(op, did))
    case None =>
      o.Going? && o.next.frames as int == base.frames + (if did.CallTo? then 1 else 0) - (if did.Leave? then 1 else 0) &&
      o.next == base.(pc := Target(did, base.pc), frames := o.next.frames, branches := base.branches + Logs(op, did))
  }

  lemma OpLeaves<M>(w: World<M>, setup: Setup, s: State<M>, op: IrOp)
    requires s.frames <= setup.depth
    ensures var base := s.(m := w.step(s.m, op).0, budget := Less(s.budget, 1), ops := s.ops + 1);
      var did := w.step(s.m, op).1;
      Leaves(setup, base, op, did, OpStep(w, setup, s, op).0) && (OpStep(w, setup, s, op).1 <==> did != Go)
  {
    var base := s.(m := w.step(s.m, op).0, budget := Less(s.budget, 1), ops := s.ops + 1);
    assert base.branches + [] == base.branches;
    assert Spend(s.budget) == Less(s.budget, 1);
  }

  /** The outcome of an instruction's operations is told by what they did. */
  ghost predicate OpsTold<M>(w: World<M>, setup: Setup, s: State<M>, ops: seq<IrOp>, dids: seq<Step>, o: Outcome<M>) {
    Performed(w, s.m, ops, dids) &&
    var base := Along(w, s, ops, |dids|);
    if dids == [] then o == Going(base) else Leaves(setup, base, ops[|dids| - 1], dids[|dids| - 1], o)
  }

  /** The operations before the `k`th only went on. */
  ghost predicate WentOn<M>(w: World<M>, m: M, ops: seq<IrOp>, k: nat) {
    k <= |ops| && forall i: nat :: i < k ==> Did(w, m, ops, i) == Go
  }

  ghost function DidsTo<M>(w: World<M>, m: M, ops: seq<IrOp>, n: nat): seq<Step>
    requires n <= |ops|
  {
    seq(n, k requires 0 <= k < n => Did(w, m, ops, k))
  }

  lemma AlongStep<M>(w: World<M>, s: State<M>, ops: seq<IrOp>, k: nat)
    requires k < |ops|
    ensures var t := Along(w, s, ops, k);
      Along(w, s, ops, k + 1) == t.(m := w.step(t.m, ops[k]).0, budget := Less(t.budget, 1), ops := t.ops + 1) &&
      Did(w, s.m, ops, k) == w.step(t.m, ops[k]).1
  {
  }

  lemma AllWent<M>(w: World<M>, setup: Setup, s: State<M>, ops: seq<IrOp>)
    requires WentOn(w, s.m, ops, |ops|) && s.frames <= setup.depth
    ensures OpsTold(w, setup, s, ops, DidsTo(w, s.m, ops, |ops|), Going(Along(w, s, ops, |ops|)))
  {
    var base := Along(w, s, ops, |ops|);
    assert base.branches + [] == base.branches;
  }

  lemma StopsAfter<M>(w: World<M>, setup: Setup, s: State<M>, ops: seq<IrOp>, k: nat)
    requires k < |ops| && WentOn(w, s.m, ops, k) && Did(w, s.m, ops, k) != Go && s.frames <= setup.depth
    ensures OpsTold(w, setup, s, ops, DidsTo(w, s.m, ops, k + 1), OpStep(w, setup, Along(w, s, ops, k), ops[k]).0)
  {
    AlongStep(w, s, ops, k);
    OpLeaves(w, setup, Along(w, s, ops, k), ops[k]);
    assert DidsTo(w, s.m, ops, k + 1)[k] == Did(w, s.m, ops, k);
  }

  lemma {:induction false} OpsAreTold<M>(w: World<M>, setup: Setup, s: State<M>, ops: seq<IrOp>, k: nat) returns (n: nat)
    requires s.frames <= setup.depth && WentOn(w, s.m, ops, k)
    ensures n <= |ops| && OpsTold(w, setup, s, ops, DidsTo(w, s.m, ops, n), OpsFrom(w, setup, Along(w, s, ops, k), ops, k))
    decreases |ops| - k
  {
    if k == |ops| {
      n := k;
      AllWent(w, setup, s, ops);
    } else {
      AlongStep(w, s, ops, k);
      OpLeaves(w, setup, Along(w, s, ops, k), ops[k]);
      if Did(w, s.m, ops, k) == Go {
        var t := Along(w, s, ops, k + 1);
        assert t.branches + [] == t.branches;
        n := OpsAreTold(w, setup, s, ops, k + 1);
      } else {
        n := k + 1;
        StopsAfter(w, setup, s, ops, k);
      }
    }
  }

  // ------------------------------------------------------------------ a turn is told

  ghost function Opened<M>(v: Visit<M>): int {
    (if LastDid(v).CallTo? then 1 else 0) - (if LastDid(v).Leave? then 1 else 0)
  }

  /** What an instruction does to the state's counts, and where its machine is. */
  ghost predicate Adds<M>(w: World<M>, s: State<M>, v: Visit<M>, t: State<M>)
    requires v.at in w.code
  {
    t.m == v.end && t.ops == s.ops + |v.dids| && t.insns == s.insns + 1 && t.branches == s.branches + Transferred(w, v) &&
    t.unlifted == s.unlifted + NotLifted(w, v)
  }

  ghost function Passes<M>(w: World<M>, v: Visit<M>): nat
    requires v.at in w.code
  {
    if w.code[v.at].gate == Some(Linux) then 1 else 0
  }

  /** The outcome of a turn is told by the instruction that was run. */
  ghost predicate TurnTold<M>(w: World<M>, setup: Setup, s: State<M>, v: Visit<M>, o: Outcome<M>) {
    v.at in w.code && v.at == s.pc && v.start == s.m && Visited(w, setup, s.frames, v) &&
    match o
    case Done(e, last) =>
      Stops(w, setup, s.frames, v) == Some(e) && Adds(w, s, v, last) &&
      (if StopsByOp(w, setup, s.frames, v).Some? then last.frames == s.frames && last.syscalls == s.syscalls
       else last.frames as int == s.frames + Opened(v) && last.syscalls == s.syscalls + Passes(w, v))
    case Going(t) =>
      Stops(w, setup, s.frames, v) == None && Adds(w, s, v, t) && t.frames as int == s.frames + Opened(v) &&
      t.syscalls == s.syscalls + Passes(w, v) && t.pc == Goes(w, v) && t.budget == Less(s.budget, |v.dids|)
  }

  /** The visit that performed these operations. */
  ghost function VisitOf<M>(w: World<M>, setup: Setup, s: State<M>, dids: seq<Step>): Visit<M>
    requires s.pc in w.code && |dids| <= |w.code[s.pc].ops|
  {
    var insn := w.code[s.pc];
    var mid := After(w, s.m, insn.ops, |dids|);
    var v := Visit(s.pc, s.m, dids, mid);
    if StopsByOp(w, setup, s.frames, v).Some? then v else Visit(s.pc, s.m, dids, GateLeaves(w, mid, s.pc, insn.gate))
  }

  /** The state an instruction's operations start from. */
  ghost function Begun<M>(w: World<M>, s: State<M>): State<M>
    requires s.pc in w.code
  {
    var insn := w.code[s.pc];
    s.(pc := s.pc + insn.len, unlifted := if insn.complete then s.unlifted else s.unlifted + [s.pc])
  }

  /** The operations' outcome, then the gate's. */
  ghost function Gated<M>(w: World<M>, s: State<M>, o: Outcome<M>): Outcome<M>
    requires s.pc in w.code
  {
    if o.Done? then o else PassGate(w, o.next.(insns := o.next.insns + 1), s.pc, w.code[s.pc].gate)
  }

  lemma TurnIs<M>(w: World<M>, setup: Setup, s: State<M>)
    requires s.budget > 0 && s.pc in w.code
    ensures Turn(w, setup, s) == Gated(w, s, OpsFrom(w, setup, Begun(w, s), w.code[s.pc].ops, 0))
  {
  }

  lemma TurnIsTold<M>(w: World<M>, setup: Setup, s: State<M>) returns (v: Visit<M>)
    requires s.frames <= setup.depth && s.budget > 0 && s.pc in w.code
    ensures TurnTold(w, setup, s, v, Turn(w, setup, s))
  {
    var insn, start := w.code[s.pc], Begun(w, s);
    assert Along(w, start, insn.ops, 0) == start;
    var n := OpsAreTold(w, setup, start, insn.ops, 0);
    var dids := DidsTo(w, s.m, insn.ops, n);
    v := VisitOf(w, setup, s, dids);
    GateTold(w, setup, s, dids, OpsFrom(w, setup, start, insn.ops, 0));
    TurnIs(w, setup, s);
  }

  lemma GateTold<M>(w: World<M>, setup: Setup, s: State<M>, dids: seq<Step>, o: Outcome<M>)
    requires s.pc in w.code && OpsTold(w, setup, Begun(w, s), w.code[s.pc].ops, dids, o)
    ensures TurnTold(w, setup, s, VisitOf(w, setup, s, dids), Gated(w, s, o))
  {
    if o.Done? {
      DoneTold(w, setup, s, dids, o);
    } else {
      GoingTold(w, setup, s, dids, o);
    }
  }

  lemma DoneTold<M>(w: World<M>, setup: Setup, s: State<M>, dids: seq<Step>, o: Outcome<M>)
    requires s.pc in w.code && OpsTold(w, setup, Begun(w, s), w.code[s.pc].ops, dids, o) && o.Done?
    ensures TurnTold(w, setup, s, VisitOf(w, setup, s, dids), o)
  {
    assert s.unlifted + [] == s.unlifted;
  }

  /** No operation ended the run: the state is where the operations left it. */
  lemma GoingTold<M>(w: World<M>, setup: Setup, s: State<M>, dids: seq<Step>, o: Outcome<M>)
    requires s.pc in w.code && OpsTold(w, setup, Begun(w, s), w.code[s.pc].ops, dids, o) && o.Going?
    ensures TurnTold(w, setup, s, VisitOf(w, setup, s, dids), Gated(w, s, o))
  {
    OpsAdd(w, setup, s, dids, o);
    var v, t := VisitOf(w, setup, s, dids), o.next.(insns := o.next.insns + 1);
    match w.code[s.pc].gate
    case None =>
    case Some(Foreign) =>
    case Some(Linux) => assert v.end == w.serve(t.m, s.pc).0;
  }

  lemma OpsAdd<M>(w: World<M>, setup: Setup, s: State<M>, dids: seq<Step>, o: Outcome<M>)
    requires s.pc in w.code && OpsTold(w, setup, Begun(w, s), w.code[s.pc].ops, dids, o) && o.Going?
    ensures var v, t := VisitOf(w, setup, s, dids), o.next;
      StopsByOp(w, setup, s.frames, v) == None && t.m == After(w, s.m, w.code[s.pc].ops, |dids|) && t.ops == s.ops + |dids| &&
      t.insns == s.insns && t.branches == s.branches + Transferred(w, v) && t.unlifted == s.unlifted + NotLifted(w, v) &&
      t.syscalls == s.syscalls && t.frames as int == s.frames + Opened(v) &&
      t.pc == Goes(w, v) && t.budget == Less(s.budget, |v.dids|)
  {
    if dids == [] {
      assert s.branches + [] == s.branches;
    }
    assert s.unlifted + [] == s.unlifted;
  }

  // ------------------------------------------------------------------ a run is told

  lemma Shifted<M>(v: Visit<M>, rest: seq<Visit<M>>, j: nat)
    requires j <= |rest|
    ensures ([v] + rest)[..j + 1] == [v] + rest[..j]
    ensures Calls(([v] + rest)[..j + 1]) == (if LastDid(v).CallTo? then 1 else 0) + Calls(rest[..j])
    ensures Returns(([v] + rest)[..j + 1]) == (if LastDid(v).Leave? then 1 else 0) + Returns(rest[..j])
    ensures OpsIn(([v] + rest)[..j + 1]) == |v.dids| + OpsIn(rest[..j])
  {
    var part := [v] + rest[..j];
    assert ([v] + rest)[..j + 1] == part && part[0] == v && part[1..] == rest[..j];
  }

  lemma LevelShifts<M>(frames: nat, v: Visit<M>, rest: seq<Visit<M>>, j: nat, now: nat)
    requires j <= |rest| && now as int == frames + Opened(v)
    ensures Level(frames, [v] + rest, j + 1) == Level(now, rest, j)
  {
    Shifted(v, rest, j);
  }

  lemma LevelFirst<M>(frames: nat, vs: seq<Visit<M>>)
    ensures Level(frames, vs, 0) == frames
  {
    assert vs[..0] == [];
  }

  lemma WholeOps<M>(v: Visit<M>, rest: seq<Visit<M>>)
    ensures OpsIn([v] + rest) == |v.dids| + OpsIn(rest)
  {
    assert ([v] + rest)[1..] == rest;
  }

  lemma WholeTransfers<M>(w: World<M>, v: Visit<M>, rest: seq<Visit<M>>)
    requires v.at in w.code && InCode(w, rest)
    ensures InCode(w, [v] + rest) && Transfers(w, [v] + rest) == Transferred(w, v) + Transfers(w, rest)
    ensures Unlifted(w, [v] + rest) == NotLifted(w, v) + Unlifted(w, rest)
  {
    assert ([v] + rest)[1..] == rest;
  }

  lemma ServedShifts<M>(w: World<M>, v: Visit<M>, rest: seq<Visit<M>>, j: nat)
    requires v.at in w.code && InCode(w, rest) && j <= |rest|
    ensures InCode(w, ([v] + rest)[..j + 1]) && InCode(w, rest[..j])
    ensures Served(w, ([v] + rest)[..j + 1]) == Passes(w, v) + Served(w, rest[..j])
  {
    var part := [v] + rest[..j];
    assert ([v] + rest)[..j + 1] == part && part[0] == v && part[1..] == rest[..j];
  }

  lemma RunAtShifts<M>(w: World<M>, setup: Setup, s: State<M>, v: Visit<M>, t: State<M>, rest: seq<Visit<M>>, j: nat)
    requires s.budget > 0 && TurnTold(w, setup, s, v, Going(t)) && j < |rest| && RunAt(w, setup, t, rest, j)
    ensures RunAt(w, setup, s, [v] + rest, j + 1)
  {
    Shifted(v, rest, j);
    LevelShifts(s.frames, v, rest, j, t.frames);
  }

  lemma NextShifts<M>(w: World<M>, setup: Setup, s: State<M>, v: Visit<M>, t: State<M>, rest: seq<Visit<M>>, j: nat)
    requires TurnTold(w, setup, s, v, Going(t)) && j + 1 < |rest| && InCode(w, rest) && InCode(w, [v] + rest)
    requires Next(w, setup, t, rest, j)
    ensures Next(w, setup, s, [v] + rest, j + 1)
  {
    LevelShifts(s.frames, v, rest, j, t.frames);
  }

  lemma FollowsOn<M>(w: World<M>, setup: Setup, s: State<M>, v: Visit<M>, t: State<M>, rest: seq<Visit<M>>)
    requires s.budget > 0 && TurnTold(w, setup, s, v, Going(t)) && Follows(w, setup, t, rest)
    ensures Follows(w, setup, s, [v] + rest)
  {
    var vs := [v] + rest;
    LevelFirst(s.frames, vs);
    WholeTransfers(w, v, rest);
    assert vs[..0] == [];
    forall j: nat | j < |vs| ensures RunAt(w, setup, s, vs, j) {
      if j > 0 {
        RunAtShifts(w, setup, s, v, t, rest, j - 1);
      }
    }
    forall j: nat | j + 1 < |vs| ensures Next(w, setup, s, vs, j) {
      if j > 0 {
        NextShifts(w, setup, s, v, t, rest, j - 1);
      }
    }
  }

  lemma EndsOn<M>(w: World<M>, setup: Setup, s: State<M>, v: Visit<M>, t: State<M>, rest: seq<Visit<M>>, e: Ending)
    requires s.budget > 0 && TurnTold(w, setup, s, v, Going(t)) && InCode(w, rest) && EndsFor(w, setup, t, rest, e)
    ensures InCode(w, [v] + rest) && EndsFor(w, setup, s, [v] + rest, e)
  {
    WholeTransfers(w, v, rest);
    WholeOps(v, rest);
    LevelFirst(s.frames, [v] + rest);
    if rest == [] {
      assert [v] + rest == [v];
    } else {
      LevelShifts(s.frames, v, rest, |rest| - 1, t.frames);
    }
  }

  lemma TakenShifts<M>(w: World<M>, setup: Setup, s: State<M>, v: Visit<M>, t: State<M>, rest: seq<Visit<M>>)
    requires TurnTold(w, setup, s, v, Going(t)) && InCode(w, rest) && InCode(w, [v] + rest)
    ensures Taken(w, setup, s, [v] + rest) == Taken(w, setup, t, rest) + 1
  {
    LevelFirst(s.frames, [v] + rest);
    if rest != [] {
      LevelShifts(s.frames, v, rest, |rest| - 1, t.frames);
    }
  }

  /** The lists and sums of a run are those of its first instruction and the rest. */
  lemma SumsOn<M>(w: World<M>, setup: Setup, s: State<M>, v: Visit<M>, t: State<M>, rest: seq<Visit<M>>)
    requires TurnTold(w, setup, s, v, Going(t)) && InCode(w, rest)
    ensures InCode(w, [v] + rest) && s.ops + OpsIn([v] + rest) == t.ops + OpsIn(rest)
    ensures s.branches + Transfers(w, [v] + rest) == t.branches + Transfers(w, rest)
    ensures s.unlifted + Unlifted(w, [v] + rest) == t.unlifted + Unlifted(w, rest)
  {
    WholeTransfers(w, v, rest);
    WholeOps(v, rest);
    Regroup(s.branches, Transferred(w, v), Transfers(w, rest));
    Regroup(s.unlifted, NotLifted(w, v), Unlifted(w, rest));
  }

  lemma Regroup<T>(a: seq<T>, b: seq<T>, c: seq<T>)
    ensures a + (b + c) == (a + b) + c
  {
  }

  lemma CountsOn<M>(w: World<M>, setup: Setup, s: State<M>, v: Visit<M>, t: State<M>, rest: seq<Visit<M>>, last: State<M>)
    requires TurnTold(w, setup, s, v, Going(t)) && InCode(w, rest) && Counts(w, setup, t, rest, last)
    ensures InCode(w, [v] + rest) && Counts(w, setup, s, [v] + rest, last)
  {
    SumsOn(w, setup, s, v, t, rest);
    TakenShifts(w, setup, s, v, t, rest);
    LevelShifts(s.frames, v, rest, Taken(w, setup, t, rest), t.frames);
    ServedShifts(w, v, rest, Taken(w, setup, t, rest));
  }

  /** A turn that ended the run is a history of one instruction. */
  lemma OneTurn<M>(w: World<M>, setup: Setup, s: State<M>, v: Visit<M>, e: Ending, last: State<M>)
    requires s.budget > 0 && TurnTold(w, setup, s, v, Done(e, last))
    ensures Told(w, setup, s, [v], e, last)
  {
    var vs := [v];
    LevelFirst(s.frames, vs);
    assert vs[..0] == [] && vs[..1] == vs && vs[1..] == [];
    WholeTransfers(w, v, []);
    assert [v] + [] == [v];
    WholeOps(v, []);
    Shifted(v, [], 0);
    ServedShifts(w, v, [], 0);
  }

  /** A run that had no budget, or nowhere to start. */
  lemma NoTurn<M>(w: World<M>, setup: Setup, s: State<M>)
    requires s.budget == 0 || s.pc !in w.code
    ensures Turn(w, setup, s).Done? && Told(w, setup, s, [], Turn(w, setup, s).ending, Turn(w, setup, s).last)
  {
    var none: seq<Visit<M>> := [];
    LevelFirst(s.frames, none);
    assert s.branches + [] == s.branches && s.unlifted + [] == s.unlifted;
  }

  /** Every run has a history: the instructions it ran, each where the one before it
      went, with the calls less the returns taken for the frames open, and why it
      ended. */
  lemma {:induction false} RunIsTold<M>(w: World<M>, setup: Setup, s: State<M>) returns (vs: seq<Visit<M>>)
    requires w.Valid() && Kept(setup, s)
    ensures Told(w, setup, s, vs, RunFrom(w, setup, s).0, RunFrom(w, setup, s).1)
    decreases s.budget, Distance(w, s.pc)
  {
    if s.budget == 0 || s.pc !in w.code {
      vs := [];
      NoTurn(w, setup, s);
    } else {
      var v := TurnIsTold(w, setup, s);
      match Turn(w, setup, s)
      case Done(e, last) =>
        vs := [v];
        OneTurn(w, setup, s, v, e, last);
      case Going(t) =>
        TurnDecreases(w, setup, s);
        TurnKeeps(w, setup, s);
        var rest := RunIsTold(w, setup, t);
        vs := [v] + rest;
        FollowsOn(w, setup, s, v, t, rest);
        EndsOn(w, setup, s, v, t, rest, RunFrom(w, setup, s).0);
        CountsOn(w, setup, s, v, t, rest, RunFrom(w, setup, s).1);
    }
  }

  /** The run was told to stop at this transfer. */
  ghost predicate ToldToStop<M>(w: World<M>, setup: Setup, v: Visit<M>) {
    v.at in w.code && LastOp(w, v).Some? && LastOp(w, v).value.indirect && setup.stopAtIndirect == Some(LastOp(w, v).value.addr)
  }

  lemma StopIs<M>(w: World<M>, setup: Setup, frames: int, v: Visit<M>)
    requires Visited(w, setup, frames, v)
    ensures Stops(w, setup, frames, v) == Some(Finished) <==> LastDid(v).Leave? && frames == 0
    ensures (Stops(w, setup, frames, v).Some? && Stops(w, setup, frames, v).value.Call?) <==>
      LastDid(v).CallTo? && frames == setup.depth && !ToldToStop(w, setup, v)
  {
    assert v.dids != [] ==> LastOp(w, v).Some?;
  }

  lemma EndIs<M>(w: World<M>, setup: Setup, s: State<M>, vs: seq<Visit<M>>, e: Ending, n: nat)
    requires InCode(w, vs) && EndsFor(w, setup, s, vs, e) && |vs| == n + 1 && Visited(w, setup, Level(s.frames, vs, n), vs[n])
    ensures e == Finished <==> LastDid(vs[n]).Leave? && Level(s.frames, vs, n) == 0
    ensures e.Call? <==> LastDid(vs[n]).CallTo? && Level(s.frames, vs, n) == setup.depth && !ToldToStop(w, setup, vs[n])
  {
    StopIs(w, setup, Level(s.frames, vs, n), vs[n]);
  }

  lemma LastVisited<M>(w: World<M>, setup: Setup, s: State<M>, vs: seq<Visit<M>>, n: nat)
    requires Follows(w, setup, s, vs) && n < |vs|
    ensures Visited(w, setup, Level(s.frames, vs, n), vs[n])
  {
    assert RunAt(w, setup, s, vs, n);
  }

  /** A run is finished exactly at a return with no frame open, and a call ends it
      exactly with `depth` frames open, unless the run was told to stop there. */
  lemma EndingsTold<M>(w: World<M>, setup: Setup, s: State<M>, vs: seq<Visit<M>>, e: Ending, last: State<M>)
    requires Told(w, setup, s, vs, e, last)
    ensures e == Finished <==> vs != [] && LastDid(vs[|vs| - 1]).Leave? && Level(s.frames, vs, |vs| - 1) == 0
    ensures e.Call? <==>
      vs != [] && LastDid(vs[|vs| - 1]).CallTo? && Level(s.frames, vs, |vs| - 1) == setup.depth &&
      !ToldToStop(w, setup, vs[|vs| - 1])
  {
    if vs != [] {
      LastVisited(w, setup, s, vs, |vs| - 1);
      EndIs(w, setup, s, vs, e, |vs| - 1);
    }
  }
}
