/** The emulator's run loop: one instruction at a time, under a budget
    (crates/e5r-api/src/emulate.rs). */
module Emulate {
  import opened Ordered
  import opened Image

  /** Which kind of gate into the kernel an instruction is. */
  datatype Gate = Linux | Foreign

  datatype IrOp = IrOp(addr: Addr, indirect: bool, code: nat)

  /** A decoded instruction, lifted. */
  datatype Lifted = Lifted(len: nat, ops: seq<IrOp>, complete: bool, gate: Option<Gate>)

  /** What one operation did. */
  datatype Step =
    | Go
    | Jump(target: Addr)
    | CallTo(target: Addr)
    | Leave(target: Addr)
    | Unmodelled(at: Addr)
    | ZeroDivide(at: Addr)

  datatype Answer = Returned(value: nat) | Exited(status: nat) | Refused(number: nat)

  /** What a run reads: code by address, what an operation does to a machine, and
      how the kernel answers one. The kernel's own state is part of the machine. */
  datatype World<!M> = World(code: map<Addr, Lifted>, step: (M, IrOp) -> (M, Step), serve: (M, Addr) -> (M, Answer)) {
    ghost predicate Valid() {
      forall a :: a in code ==> code[a].len >= 1
    }
  }

  datatype Setup = Setup(depth: nat, budget: nat, stopAtIndirect: Option<Addr>)

  datatype Ending =
    | Finished
    | OutOfBudget
    | NoCode(at: Addr)
    | Call(target: Addr)
    | Unimplemented(at: Addr)
    | DivideByZero(at: Addr)
    | Exit(status: nat)
    | Syscall(at: Addr, number: nat)
    | Indirect(at: Addr, to: Addr)

  /** Where an indirect transfer went. */
  datatype Transfer = Transfer(at: Addr, to: Addr, call: bool)

  datatype State<M> = State(m: M, pc: Addr, budget: nat, frames: nat, insns: nat, ops: nat, unlifted: seq<Addr>,
                            branches: seq<Transfer>, syscalls: nat)

  function Initial<M>(m: M, entry: Addr, setup: Setup): State<M> {
    State(m, entry, setup.budget, 0, 0, 0, [], [], 0)
  }

  /** Part of a run either goes on or has ended. */
  datatype Outcome<M> = Going(next: State<M>) | Done(ending: Ending, last: State<M>)

  // -------------------------------------------------------------- one instruction

  function Spend(budget: nat): nat {
    if budget == 0 then 0 else budget - 1
  }

  /** An indirect transfer is written down before anything else happens. */
  function Logged<M>(s: State<M>, op: IrOp, to: Addr, call: bool): State<M> {
    if op.indirect then s.(branches := s.branches + [Transfer(op.addr, to, call)]) else s
  }

  predicate StopsHere(setup: Setup, op: IrOp) {
    op.indirect && setup.stopAtIndirect == Some(op.addr)
  }

  /** Run one operation; `Going` with a new place to go ends the instruction. */
  function OpStep<M>(w: World<M>, setup: Setup, s: State<M>, op: IrOp): (Outcome<M>, bool) {
    var (m, step) := w.step(s.m, op);
    var t := s.(m := m, budget := Spend(s.budget), ops := s.ops + 1);
    var ended := t.(insns := t.insns + 1);
    match step
    case Go => (Going(t), false)
    case Jump(target) =>
      (if StopsHere(setup, op) then (Done(Indirect(op.addr, target), Logged(ended, op, target, false)), true)
       else (Going(Logged(t, op, target, false).(pc := target)), true))
    case CallTo(target) =>
      (if StopsHere(setup, op) then (Done(Indirect(op.addr, target), Logged(ended, op, target, true)), true)
       else if s.frames >= setup.depth then (Done(Ending.Call(target), Logged(ended, op, target, true)), true)
       else (Going(Logged(t, op, target, true).(pc := target, frames := s.frames + 1)), true))
    case Leave(target) =>
      (if s.frames == 0 then (Done(Finished, ended), true)
       else (Going(t.(pc := target, frames := s.frames - 1)), true))
    case Unmodelled(at) => (Done(Unimplemented(at), ended), true)
    case ZeroDivide(at) => (Done(DivideByZero(at), ended), true)
  }

  /** Run an instruction's operations from the `k`th on; the address to fall
      through to is already in `pc`. */
  function OpsFrom<M>(w: World<M>, setup: Setup, s: State<M>, ops: seq<IrOp>, k: nat): Outcome<M>
    requires k <= |ops|
    decreases |ops| - k
  {
    if k == |ops| then Going(s) else
    var (o, leaves) := OpStep(w, setup, s, ops[k]);
    if leaves || o.Done? then o else OpsFrom(w, setup, o.next, ops, k + 1)
  }

  /** What the gate into the kernel does after the operations. */
  function PassGate<M>(w: World<M>, s: State<M>, at: Addr, gate: Option<Gate>): Outcome<M> {
    match gate
    case None => Going(s)
    case Some(Foreign) => Done(Unimplemented(at), s)
    case Some(Linux) =>
      (var (m, answer) := w.serve(s.m, at);
       var t := s.(m := m, syscalls := s.syscalls + 1);
       match answer
       case Returned(_) => Going(t)
       case Exited(status) => Done(Exit(status), t)
       case Refused(number) => Done(Ending.Syscall(at, number), t))
  }

  /** One turn of the loop. */
  function Turn<M>(w: World<M>, setup: Setup, s: State<M>): Outcome<M> {
    if s.budget == 0 then Done(OutOfBudget, s)
    else if s.pc !in w.code then Done(NoCode(s.pc), s)
    else
      var insn := w.code[s.pc];
      var start := s.(pc := s.pc + insn.len, unlifted := if insn.complete then s.unlifted else s.unlifted + [s.pc]);
      match OpsFrom(w, setup, start, insn.ops, 0)
      case Done(e, last) => Done(e, last)
      case Going(t) => PassGate(w, t.(insns := t.insns + 1), s.pc, insn.gate)
  }

  // -------------------------------------------------------------------- termination

  /** One past the highest address with code. */
  ghost function Top(code: set<Addr>): (top: nat)
    ensures forall a :: a in code ==> a < top
  {
    if code == {} then 0 else
    var a :| a in code;
    var rest := Top(code - {a});
    assert forall x :: x in code ==> x == a || x in code - {a};
    if a < rest then rest else a + 1
  }

  /** How far a place is from the end of the code. */
  ghost function Distance<M>(w: World<M>, pc: Addr): nat {
    if pc < Top(w.code.Keys) then Top(w.code.Keys) - pc else 0
  }

  lemma OpSpends<M>(w: World<M>, setup: Setup, s: State<M>, op: IrOp)
    ensures var o := OpStep(w, setup, s, op).0;
      o.Going? ==> o.next.budget == Spend(s.budget)
  {
  }

  /** Operations never give budget back, and any of them at all spends some. */
  lemma {:induction false} OpsSpend<M>(w: World<M>, setup: Setup, s: State<M>, ops: seq<IrOp>, k: nat)
    requires k <= |ops|
    ensures var o := OpsFrom(w, setup, s, ops, k);
      o.Going? ==> (o.next.budget <= s.budget && (k < |ops| && s.budget > 0 ==> o.next.budget < s.budget) &&
                    (k == |ops| ==> o.next == s))
    decreases |ops| - k
  {
    if k < |ops| {
      OpSpends(w, setup, s, ops[k]);
      var (o, leaves) := OpStep(w, setup, s, ops[k]);
      if !leaves && o.Going? {
        OpsSpend(w, setup, o.next, ops, k + 1);
      }
    }
  }

  /** Every turn that goes on either spends budget or moves towards the end of the
      code with the budget unspent. */
  lemma TurnDecreases<M>(w: World<M>, setup: Setup, s: State<M>)
    requires w.Valid() && Turn(w, setup, s).Going?
    ensures var t := Turn(w, setup, s).next;
      t.budget < s.budget || (t.budget == s.budget && Distance(w, t.pc) < Distance(w, s.pc))
  {
    var insn := w.code[s.pc];
    var start := s.(pc := s.pc + insn.len, unlifted := if insn.complete then s.unlifted else s.unlifted + [s.pc]);
    OpsSpend(w, setup, start, insn.ops, 0);
  }

  /** The whole run from a state. */
  ghost function RunFrom<M>(w: World<M>, setup: Setup, s: State<M>): (Ending, State<M>)
    requires w.Valid()
    decreases s.budget, Distance(w, s.pc)
  {
    match Turn(w, setup, s)
    case Done(e, last) => (e, last)
    case Going(t) =>
      TurnDecreases(w, setup, s);
      RunFrom(w, setup, t)
  }

  // ------------------------------------------------------------------- the loop itself

  /** Run an instruction's operations in order. */
  method RunOps<M>(w: World<M>, setup: Setup, start: State<M>, ops: seq<IrOp>) returns (o: Outcome<M>)
    ensures o == OpsFrom(w, setup, start, ops, 0)
  {
    var s := start;
    var k := 0;
    while k < |ops|
      invariant k <= |ops| && OpsFrom(w, setup, s, ops, k) == OpsFrom(w, setup, start, ops, 0)
    {
      var (done, leaves) := OpStep(w, setup, s, ops[k]);
      if leaves || done.Done? {
        return done;
      }
      s := done.next;
      k := k + 1;
    }
    return Going(s);
  }

  /** Run the instruction at the program counter. */
  method RunInsn<M>(w: World<M>, setup: Setup, s: State<M>) returns (o: Outcome<M>)
    requires w.Valid() && s.budget > 0 && s.pc in w.code
    ensures o == Turn(w, setup, s)
  {
    var insn := w.code[s.pc];
    var start := s.(pc := s.pc + insn.len, unlifted := if insn.complete then s.unlifted else s.unlifted + [s.pc]);
    o := RunOps(w, setup, start, insn.ops);
    if o.Going? {
      o := PassGate(w, o.next.(insns := o.next.insns + 1), s.pc, insn.gate);
    }
  }

  /** Decode, lift, run, one instruction at a time, until something ends it. */
  method Walk<M>(w: World<M>, setup: Setup, m: M, entry: Addr) returns (ending: Ending, last: State<M>)
    requires w.Valid()
    ensures (ending, last) == RunFrom(w, setup, Initial(m, entry, setup))
  {
    var s := Initial(m, entry, setup);
    while true
      invariant RunFrom(w, setup, s) == RunFrom(w, setup, Initial(m, entry, setup))
      decreases s.budget, Distance(w, s.pc)
    {
      if s.budget == 0 {
        return OutOfBudget, s;
      }
      if s.pc !in w.code {
        return NoCode(s.pc), s;
      }
      var o := RunInsn(w, setup, s);
      if o.Done? {
        return o.ending, o.last;
      }
      TurnDecreases(w, setup, s);
      s := o.next;
    }
  }

  // ------------------------------------------------------------------- what runs keep

  /** No instruction lifts to more operations than this. */
  ghost predicate Longest<M>(w: World<M>, n: nat) {
    forall a :: a in w.code ==> |w.code[a].ops| <= n
  }

  /** Where a state stands after some operations of an instruction. */
  ghost predicate Spent<M>(before: State<M>, after: State<M>, ops: nat) {
    match before
    case State(_, _, budget, _, _, done, _, _, _) =>
      (after.ops <= done + ops && after.budget <= budget &&
       (if budget >= after.ops - done then after.budget == budget - (after.ops - done) else after.budget == 0) &&
       after.ops >= done)
  }

  lemma {:induction false} OpsCount<M>(w: World<M>, setup: Setup, s: State<M>, ops: seq<IrOp>, k: nat)
    requires k <= |ops|
    ensures var o := OpsFrom(w, setup, s, ops, k);
      Spent(s, if o.Going? then o.next else o.last, |ops| - k)
    decreases |ops| - k
  {
    if k < |ops| {
      var (o, leaves) := OpStep(w, setup, s, ops[k]);
      if !leaves && o.Going? {
        OpsCount(w, setup, o.next, ops, k + 1);
      }
    }
  }

  lemma TurnCount<M>(w: World<M>, setup: Setup, s: State<M>, n: nat)
    requires Longest(w, n)
    ensures var o := Turn(w, setup, s);
      Spent(s, if o.Going? then o.next else o.last, if s.budget == 0 then 0 else n)
  {
    if s.budget > 0 && s.pc in w.code {
      var insn := w.code[s.pc];
      var start := s.(pc := s.pc + insn.len, unlifted := if insn.complete then s.unlifted else s.unlifted + [s.pc]);
      OpsCount(w, setup, start, insn.ops, 0);
    }
  }

  /** Operations run never exceed the budget less one, plus the longest single
      instruction, and none run on no budget. */
  lemma {:induction false} OpsBounded<M>(w: World<M>, setup: Setup, s: State<M>, n: nat)
    requires w.Valid() && Longest(w, n)
    ensures RunFrom(w, setup, s).1.ops <= s.ops + (if s.budget == 0 then 0 else s.budget - 1 + n)
    decreases s.budget, Distance(w, s.pc)
  {
    TurnCount(w, setup, s, n);
    var o := Turn(w, setup, s);
    if o.Going? {
      TurnDecreases(w, setup, s);
      OpsBounded(w, setup, o.next, n);
    }
  }

  /** Frames open, the transfers logged, and what an ending says about them. */
  ghost predicate Kept<M>(setup: Setup, s: State<M>) {
    s.frames <= setup.depth &&
    forall i :: 0 <= i < |s.branches| ==> setup.stopAtIndirect != Some(s.branches[i].at)
  }

  ghost predicate EndsWell<M>(setup: Setup, e: Ending, last: State<M>) {
    last.frames <= setup.depth &&
    (e == Finished ==> last.frames == 0) &&
    (e.Call? ==> last.frames == setup.depth) &&
    (e == OutOfBudget ==> last.budget == 0) &&
    (if e.Indirect? then
       last.branches != [] && setup.stopAtIndirect == Some(e.at) &&
       last.branches[|last.branches| - 1].at == e.at && last.branches[|last.branches| - 1].to == e.to &&
       forall i :: 0 <= i < |last.branches| - 1 ==> setup.stopAtIndirect != Some(last.branches[i].at)
     else forall i :: 0 <= i < |last.branches| ==> setup.stopAtIndirect != Some(last.branches[i].at))
  }

  lemma OpKeeps<M>(w: World<M>, setup: Setup, s: State<M>, op: IrOp)
    requires Kept(setup, s)
    ensures match OpStep(w, setup, s, op).0
      case Going(t) => Kept(setup, t)
      case Done(e, last) => EndsWell(setup, e, last)
  {
  }

  lemma {:induction false} OpsKeep<M>(w: World<M>, setup: Setup, s: State<M>, ops: seq<IrOp>, k: nat)
    requires k <= |ops| && Kept(setup, s)
    ensures match OpsFrom(w, setup, s, ops, k)
      case Going(t) => Kept(setup, t)
      case Done(e, last) => EndsWell(setup, e, last)
    decreases |ops| - k
  {
    if k < |ops| {
      OpKeeps(w, setup, s, ops[k]);
      var (o, leaves) := OpStep(w, setup, s, ops[k]);
      if !leaves && o.Going? {
        OpsKeep(w, setup, o.next, ops, k + 1);
      }
    }
  }

  lemma TurnKeeps<M>(w: World<M>, setup: Setup, s: State<M>)
    requires Kept(setup, s)
    ensures match Turn(w, setup, s)
      case Going(t) => Kept(setup, t)
      case Done(e, last) => EndsWell(setup, e, last)
  {
    if s.budget > 0 && s.pc in w.code {
      var insn := w.code[s.pc];
      var start := s.(pc := s.pc + insn.len, unlifted := if insn.complete then s.unlifted else s.unlifted + [s.pc]);
      OpsKeep(w, setup, start, insn.ops, 0);
    }
  }

  /** Over every run, open frames stay within the depth, the run is finished only
      at the outermost frame, a call ends it only at the full depth, and it stops
      at the first transfer it was told to stop at and at no other. */
  lemma {:induction false} RunEndsWell<M>(w: World<M>, setup: Setup, s: State<M>)
    requires w.Valid() && Kept(setup, s)
    ensures EndsWell(setup, RunFrom(w, setup, s).0, RunFrom(w, setup, s).1)
    decreases s.budget, Distance(w, s.pc)
  {
    TurnKeeps(w, setup, s);
    var o := Turn(w, setup, s);
    if o.Going? {
      TurnDecreases(w, setup, s);
      RunEndsWell(w, setup, o.next);
    }
  }

  /** A run from the start. */
  lemma RunIsBounded<M>(w: World<M>, setup: Setup, m: M, entry: Addr, n: nat)
    requires w.Valid() && Longest(w, n)
    ensures var (e, last) := RunFrom(w, setup, Initial(m, entry, setup));
      EndsWell(setup, e, last) && last.ops <= (if setup.budget == 0 then 0 else setup.budget - 1 + n)
  {
    RunEndsWell(w, setup, Initial(m, entry, setup));
    OpsBounded(w, setup, Initial(m, entry, setup), n);
  }
}
