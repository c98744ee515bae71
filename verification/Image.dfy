/** What a walk reads: decoded instructions by address, which addresses are
    executable, and the answer jump-table recovery gives for each indirect
    branch. Addresses are unbounded, so nothing wraps at the top of memory. */
module Image {
  import opened Ordered

  type Addr = nat

  datatype Arch = X86_64 | AArch64 | Thumb | OtherArch

  /** Half open: from `start` up to but not including `end`. */
  datatype Range = Range(start: Addr, end: Addr)

  datatype Flow =
    | Next
    | Branch(target: Addr)
    | CondBranch(target: Addr)
    | IndirectBranch
    | Call(target: Addr)
    | IndirectCall
    | Return
    | Trap
    | Syscall

  datatype Insn = Insn(addr: Addr, len: nat, flow: Flow) {
    function End(): Addr { addr + len }
  }

  /** `code` holds what decodes at each address; `tables` the targets recovered
      for an indirect branch, absent when recovery gives up. */
  datatype Program = Program(code: map<Addr, Insn>, exec: set<Addr>, tables: map<Addr, seq<Addr>>)
  {
    ghost predicate Valid() {
      forall a :: a in code ==> code[a].addr == a && code[a].len >= 1
    }
  }

  /** Why a block ended. */
  datatype Terminator = Flow | Return | TailCall | NoReturnCall | Trap | Unresolved

  datatype Halt = Complete | InstructionCap | BlockCap | Undecodable

  /** One walk: the image, where it starts, the entries of other functions, the
      functions that never return, and the bytes proved to be data. */
  datatype Job = Job(p: Program, entry: Addr, stopAt: set<Addr>, noreturn: set<Addr>, data: set<Addr>)
  {
    /** The walk can read an instruction here. */
    predicate Decodable(a: Addr) {
      a in p.code && a !in data
    }

    /** A branch to another function's entry leaves this function. */
    predicate Leaves(t: Addr) {
      t in stopAt && t != entry
    }

    /** Control carries on with the next instruction of the same run. */
    predicate Falls(i: Insn) {
      match i.flow
      case Next => true
      case IndirectCall => true
      case Syscall => true
      case Call(t) => t !in noreturn
      case _ => false
    }

    /** Where control can go from an instruction that ends a run. */
    function Exits(i: Insn): seq<Addr> {
      match i.flow
      case Branch(t) => if Leaves(t) then [] else [t]
      case CondBranch(t) => if Leaves(t) then [i.End()] else [t, i.End()]
      case IndirectBranch => if i.addr in p.tables then p.tables[i.addr] else []
      case _ => []
    }

    /** Why a run that ends with this instruction ended. */
    function EndsAs(i: Insn): Terminator {
      match i.flow
      case Call(_) => NoReturnCall
      case Return => Terminator.Return
      case Trap => Terminator.Trap
      case IndirectBranch => if i.addr in p.tables then Terminator.Flow else Unresolved
      case Branch(t) =>
        if Leaves(t) then (if t in noreturn then NoReturnCall else TailCall) else Terminator.Flow
      case _ => Terminator.Flow
    }

    predicate Unfollowed(i: Insn) {
      i.flow.IndirectBranch? && i.addr !in p.tables
    }

    /** The direct call targets an instruction contributes. */
    function CallsOf(i: Insn): set<Addr> {
      match i.flow
      case Call(t) => {t}
      case Branch(t) => if Leaves(t) then {t} else {}
      case CondBranch(t) => if Leaves(t) then {t} else {}
      case _ => {}
    }

    /** The flow relation between instruction addresses. A branch is followed
        only into executable memory; falling through is not a branch. */
    ghost predicate Step(a: Addr, b: Addr) {
      Decodable(a) &&
      var i := p.code[a];
      if Falls(i) then b == i.End() else b in Exits(i) && b in p.exec
    }

    ghost predicate IsPath(path: seq<Addr>) {
      |path| > 0 && path[0] == entry &&
      forall k :: 0 <= k < |path| - 1 ==> Step(path[k], path[k + 1])
    }

    /** Some chain of flow steps leads here from the entry. */
    ghost predicate Reachable(a: Addr) {
      exists path :: IsPath(path) && path[|path| - 1] == a
    }

    /** A block may start here: the entry, or an executable address where a
        reachable instruction that does not fall through goes. */
    ghost predicate Landing(a: Addr) {
      Reachable(a) && (a == entry || (a in p.exec && exists x :: Lands(x, a)))
    }

    ghost predicate Lands(x: Addr, a: Addr) {
      Reachable(x) && Decodable(x) && !Falls(p.code[x]) && a in Exits(p.code[x])
    }

    /** No two instructions control can reach share a byte. */
    ghost predicate NoOverlap() {
      forall a, b :: Reachable(a) && Decodable(a) && Reachable(b) && Decodable(b) && a < b
        ==> p.code[a].End() <= b
    }
  }

  lemma EntryReachable(job: Job)
    ensures job.Reachable(job.entry)
  {
    assert job.IsPath([job.entry]);
  }

  lemma StepReachable(job: Job, a: Addr, b: Addr)
    requires job.Reachable(a) && job.Step(a, b)
    ensures job.Reachable(b)
  {
    var path :| job.IsPath(path) && path[|path| - 1] == a;
    var longer := path + [b];
    assert job.IsPath(longer);
    assert longer[|longer| - 1] == b;
  }

  /** A set that holds the entry and is closed under flow steps holds
      everything reachable. */
  lemma {:induction false} ClosedHolds(job: Job, s: iset<Addr>, path: seq<Addr>)
    requires job.entry in s
    requires forall a, b :: a in s && job.Step(a, b) ==> b in s
    requires job.IsPath(path)
    ensures path[|path| - 1] in s
    decreases |path|
  {
    if |path| > 1 {
      var shorter := path[..|path| - 1];
      assert job.IsPath(shorter);
      ClosedHolds(job, s, shorter);
      assert job.Step(path[|path| - 2], path[|path| - 1]);
    }
  }

  /** Widening the no-return set, the stop set or the data only removes flow
      steps, so it only removes reachable instructions. */
  lemma StepAntitone(less: Job, more: Job, a: Addr, b: Addr)
    requires more.p == less.p && more.entry == less.entry && less.data <= more.data
    requires less.stopAt <= more.stopAt && less.noreturn <= more.noreturn
    requires more.Step(a, b)
    ensures less.Step(a, b)
  {
  }

  lemma {:induction false} ReachAntitone(less: Job, more: Job, a: Addr)
    requires more.p == less.p && more.entry == less.entry && less.data <= more.data
    requires less.stopAt <= more.stopAt && less.noreturn <= more.noreturn
    requires more.Reachable(a)
    ensures less.Reachable(a)
  {
    var path :| more.IsPath(path) && path[|path| - 1] == a;
    forall k | 0 <= k < |path| - 1 ensures less.Step(path[k], path[k + 1]) {
      StepAntitone(less, more, path[k], path[k + 1]);
    }
    assert less.IsPath(path);
  }
}
