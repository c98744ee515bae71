/** Functions in single-assignment form, as the dataflow passes read them. */
module Ssa {
  import opened Ordered

  type Addr = nat

  datatype Location = Location(space: nat, offset: int, size: nat)

  datatype Value = Value(location: Location, version: nat)

  datatype Operand = Val(value: Value) | Const(bits: nat, width: nat) | Undefined(location: Location) {
    function Size(): nat {
      match this
      case Val(v) => v.location.size
      case Const(_, w) => w
      case Undefined(l) => l.size
    }
  }

  /** The operations the guard reasoning looks at; the rest are `Other`. */
  datatype Op =
    | Copy | IntZExt | IntSExt | SubPiece
    | BoolNot | BoolAnd | BoolOr
    | IntEqual | IntNotEqual
    | IntLess | IntLessEqual | IntSLess | IntSLessEqual
    | CBranch
    | Other

  datatype Kind = Phi | Do(op: Op)

  datatype SsaOp = SsaOp(kind: Kind, out: Option<Value>, inputs: seq<Operand>)

  datatype SsaBlock = SsaBlock(ops: seq<SsaOp>, successors: seq<Addr>, predecessors: seq<Addr>)

  datatype SsaFunction = SsaFunction(entry: Addr, blocks: map<Addr, SsaBlock>) {
    /** Control can go from one block to the next along an edge the second
        block lists as incoming. Predecessors outside the function are not edges. */
    ghost predicate Edge(a: Addr, b: Addr) {
      a in blocks && b in blocks && a in blocks[b].predecessors
    }

    /** Consecutive blocks are joined by edges. */
    ghost predicate Chain(path: seq<Addr>) {
      |path| > 0 && path[0] in blocks &&
      forall k :: 0 <= k < |path| - 1 ==> Edge(path[k], path[k + 1])
    }

    /** Where a path has nothing behind it: the entry, or a block with no
        predecessor in the function. */
    ghost predicate Root(a: Addr) {
      a in blocks && (a == entry || forall p :: p in blocks[a].predecessors ==> p !in blocks)
    }

    ghost predicate PathFromRoot(path: seq<Addr>, b: Addr) {
      Chain(path) && Root(path[0]) && path[|path| - 1] == b
    }

    /** Every path from a root to `b` goes through `d`. */
    ghost predicate OnEveryPath(d: Addr, b: Addr) {
      forall path :: PathFromRoot(path, b) ==> d in path
    }

    ghost predicate EntryPath(path: seq<Addr>, b: Addr) {
      Chain(path) && path[0] == entry && path[|path| - 1] == b
    }

    /** Every path from the entry to `b` goes through `d`. */
    ghost predicate Dominates(d: Addr, b: Addr) {
      forall path :: EntryPath(path, b) ==> d in path
    }
  }
}
