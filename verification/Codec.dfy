/** Functions and their graphs as cache bytes, and back
    (crates/e5r-analysis/src/codec.rs). */
module Codec {
  import opened Ordered
  import opened Image
  import opened Walk
  import opened Wire
  import opened Cursor

  // --------------------------------------------------------------------- values

  datatype Evidence =
    | SymbolTable | DebugInfo | CodeSymbol | DynamicSymbol | EntryPoint | InitArray | EhFrame | PeUnwind
    | GuardTable | MachFunctionStarts | GoPclntab | ObjcMetadata | SwiftMetadata | RustPanic | Pdb | Export
    | ImportThunk | CallTarget | BranchTarget | JumpTableEntry | ProloguePattern | LinearSweep | DataPointer
    | Annotation

  datatype Provenance = Provenance(best: Evidence, corroborating: seq<Evidence>)

  datatype TableKind = Absolute | RelativeToBase | RelativeToEntry

  datatype JumpTable = JumpTable(at: Addr, table: Addr, entrySize: nat, kind: TableKind, base: Addr, shift: nat,
                                 targets: seq<Addr>, boundedByScan: bool)

  /** A graph over its own blocks, or over ids into a shared table. */
  datatype Cfg<+B> = Cfg(entry: Addr, blocks: B, calls: seq<Addr>, hasIndirect: bool, tables: seq<JumpTable>, halt: Halt)

  /** A name is its UTF-8 bytes. */
  datatype Function<+B> = Function(entry: Addr, name: Option<Bytes>, range: Range, provenance: Provenance, cfg: Cfg<B>)

  type Plain = Function<seq<Block>>

  // ---------------------------------------------------------------------- codes

  function EvidenceCode(e: Evidence): nat {
    match e
    case SymbolTable => 1 case DebugInfo => 2 case CodeSymbol => 3 case DynamicSymbol => 4
    case EntryPoint => 5 case InitArray => 6 case EhFrame => 7 case PeUnwind => 8
    case GuardTable => 9 case MachFunctionStarts => 10 case GoPclntab => 11 case ObjcMetadata => 12
    case SwiftMetadata => 13 case RustPanic => 14 case Pdb => 15 case Export => 16
    case ImportThunk => 17 case CallTarget => 18 case BranchTarget => 19 case JumpTableEntry => 20
    case ProloguePattern => 21 case LinearSweep => 22 case DataPointer => 23 case Annotation => 24
  }

  function EvidenceFrom(v: nat): Option<Evidence> {
    match v
    case 1 => Some(SymbolTable) case 2 => Some(DebugInfo) case 3 => Some(CodeSymbol) case 4 => Some(DynamicSymbol)
    case 5 => Some(EntryPoint) case 6 => Some(InitArray) case 7 => Some(EhFrame) case 8 => Some(PeUnwind)
    case 9 => Some(GuardTable) case 10 => Some(MachFunctionStarts) case 11 => Some(GoPclntab) case 12 => Some(ObjcMetadata)
    case 13 => Some(SwiftMetadata) case 14 => Some(RustPanic) case 15 => Some(Pdb) case 16 => Some(Export)
    case 17 => Some(ImportThunk) case 18 => Some(CallTarget) case 19 => Some(BranchTarget) case 20 => Some(JumpTableEntry)
    case 21 => Some(ProloguePattern) case 22 => Some(LinearSweep) case 23 => Some(DataPointer) case 24 => Some(Annotation)
    case _ => None
  }

  function TerminatorCode(t: Terminator): nat {
    match t
    case Flow => 1 case Return => 2 case TailCall => 3 case NoReturnCall => 4 case Trap => 5 case Unresolved => 6
  }

  function TerminatorFrom(v: nat): Option<Terminator> {
    match v
    case 1 => Some(Terminator.Flow) case 2 => Some(Terminator.Return) case 3 => Some(TailCall)
    case 4 => Some(NoReturnCall) case 5 => Some(Terminator.Trap) case 6 => Some(Unresolved)
    case _ => None
  }

  function HaltCode(h: Halt): nat {
    match h case Complete => 1 case InstructionCap => 2 case BlockCap => 3 case Undecodable => 4
  }

  function HaltFrom(v: nat): Option<Halt> {
    match v
    case 1 => Some(Complete) case 2 => Some(InstructionCap) case 3 => Some(BlockCap) case 4 => Some(Undecodable)
    case _ => None
  }

  function TableKindCode(k: TableKind): nat {
    match k case Absolute => 1 case RelativeToBase => 2 case RelativeToEntry => 3
  }

  function TableKindFrom(v: nat): Option<TableKind> {
    match v case 1 => Some(Absolute) case 2 => Some(RelativeToBase) case 3 => Some(RelativeToEntry) case _ => None
  }

  /** Each numbering is a partial inverse pair: a code means exactly one value. */
  lemma CodesInvert()
    ensures forall e, v :: EvidenceFrom(v) == Some(e) <==> EvidenceCode(e) == v
    ensures forall t, v :: TerminatorFrom(v) == Some(t) <==> TerminatorCode(t) == v
    ensures forall h, v :: HaltFrom(v) == Some(h) <==> HaltCode(h) == v
    ensures forall k, v :: TableKindFrom(v) == Some(k) <==> TableKindCode(k) == v
  {
  }

  // ----------------------------------------------------------------- the layout

  const MIN_FUNCTION := 8 + 1 + 16 + 2 + 8 + 8 + 4 + 1 + 4
  const MIN_BLOCK := 8 + 8 + 4 + 1 + 1 + 8
  const MIN_TABLE := 8 + 8 + 8 + 1 + 8 + 1 + 8 + 1

  function AddRange(b: Bytes, r: Range): Bytes {
    AddU64(AddU64(b, r.start), r.end)
  }

  function AddAddrs(b: Bytes, xs: seq<Addr>): Bytes {
    AddMany(AddU64, b, xs)
  }

  function AddEvidence(b: Bytes, e: Evidence): Bytes {
    AddU8(b, EvidenceCode(e))
  }

  /** Only the first 255 corroborations are written. */
  function Trimmed(p: Provenance): Provenance {
    if |p.corroborating| <= 255 then p else p.(corroborating := p.corroborating[..255])
  }

  function AddProvenance(b: Bytes, p: Provenance): Bytes {
    var kept := Trimmed(p).corroborating;
    AddMany(AddEvidence, AddU8(AddEvidence(b, p.best), |kept|), kept)
  }

  function AddTerminator(b: Bytes, t: Terminator): (r: Bytes)
    ensures |r| == |b| + 1
  {
    AddU8(b, TerminatorCode(t))
  }

  function AddBlock(b: Bytes, x: Block): Bytes {
    var head := AddBool(AddTerminator(AddU32(AddRange(b, x.range), x.insns), x.terminator), x.unresolved);
    AddAddrs(AddU32(head, |x.successors|), x.successors)
  }

  function AddKind(b: Bytes, k: TableKind): (r: Bytes)
    ensures |r| == |b| + 1
  {
    AddU8(b, TableKindCode(k))
  }

  /** Addresses behind a 64-bit count. */
  function AddLongList(b: Bytes, xs: seq<Addr>): Bytes {
    AddAddrs(AddU64(b, |xs|), xs)
  }

  function AddTableTail(b: Bytes, t: JumpTable): Bytes {
    AddLongList(AddBool(AddU8(AddU64(b, t.base), t.shift), t.boundedByScan), t.targets)
  }

  function AddTable(b: Bytes, t: JumpTable): Bytes {
    AddTableTail(AddKind(AddU64(AddU64(AddU64(b, t.at), t.table), t.entrySize), t.kind), t)
  }

  /** Up to and including the number of blocks. */
  function AddCfgHead(b: Bytes, c: Cfg<seq<Block>>): Bytes {
    AddU64(AddU64(b, c.entry), |c.blocks|)
  }

  function AddHalt(b: Bytes, h: Halt): (r: Bytes)
    ensures |r| == |b| + 1
  {
    AddU8(b, HaltCode(h))
  }

  function AddBlocks(b: Bytes, xs: seq<Block>): Bytes {
    AddMany(AddBlock, b, xs)
  }

  function AddTables(b: Bytes, xs: seq<JumpTable>): Bytes {
    AddMany(AddTable, b, xs)
  }

  function AddCfgTail(b: Bytes, c: Cfg<seq<Block>>): Bytes {
    var calls := AddAddrs(AddU32(b, |c.calls|), c.calls);
    AddTables(AddU32(AddHalt(AddBool(calls, c.hasIndirect), c.halt), |c.tables|), c.tables)
  }

  function AddCfg(b: Bytes, c: Cfg<seq<Block>>): Bytes {
    AddCfgTail(AddBlocks(AddCfgHead(b, c), c.blocks), c)
  }

  /** Everything before the graph. */
  function AddFunctionHead(b: Bytes, f: Plain): Bytes {
    AddProvenance(AddRange(AddOptStr(AddU64(b, f.entry), f.name), f.range), f.provenance)
  }

  function AddFunction(b: Bytes, f: Plain): Bytes {
    AddCfg(AddFunctionHead(b, f), f.cfg)
  }

  /** What a functions entry holds, in the order it is written. */
  datatype Listing = Listing(functions: seq<Plain>, noreturn: seq<Addr>, rounds: nat)

  function AddFunctions(b: Bytes, fs: seq<Plain>): Bytes {
    AddMany(AddFunction, b, fs)
  }

  function AddListingHead(l: Listing): Bytes {
    AddU64(AddU64([], l.rounds), |l.functions|)
  }

  function ListingBytes(l: Listing): Bytes {
    AddLongList(AddFunctions(AddListingHead(l), l.functions), l.noreturn)
  }

  // -------------------------------------------------------------------- reading

  function ReadRange(b: Bytes, at: nat): Read<Range> {
    var start :- ReadU64(b, at);
    var end :- ReadU64(b, start.1);
    if end.0 < start.0 then None else Some((Range(start.0, end.0), end.1))
  }

  function ReadAddrs(b: Bytes, at: nat, n: nat): Read<seq<Addr>> {
    ReadMany(ReadU64, b, at, n)
  }

  /** Addresses behind a 32-bit count. */
  function ReadAddrList(b: Bytes, at: nat): Read<seq<Addr>> {
    var n :- ReadCount32(b, at, 8);
    ReadAddrs(b, n.1, n.0)
  }

  /** Addresses behind a 64-bit count. */
  function ReadLongList(b: Bytes, at: nat): Read<seq<Addr>> {
    var n :- ReadCount(b, at, 8);
    ReadAddrs(b, n.1, n.0)
  }

  function ReadEvidence(b: Bytes, at: nat): Read<Evidence> {
    var code :- ReadU8(b, at);
    var e :- EvidenceFrom(code.0);
    Some((e, code.1))
  }

  function ReadProvenance(b: Bytes, at: nat): Read<Provenance> {
    var best :- ReadEvidence(b, at);
    var n :- ReadU8(b, best.1);
    if n.0 > |b| - n.1 then None else
    var more :- ReadMany(ReadEvidence, b, n.1, n.0);
    Some((Provenance(best.0, more.0), more.1))
  }

  function ReadTerminator(b: Bytes, at: nat): Read<Terminator> {
    var code :- ReadU8(b, at);
    var t :- TerminatorFrom(code.0);
    Some((t, code.1))
  }

  function ReadBlock(b: Bytes, at: nat): Read<Block> {
    var range :- ReadRange(b, at);
    var insns :- ReadU32(b, range.1);
    var terminator :- ReadTerminator(b, insns.1);
    var unresolved :- ReadBool(b, terminator.1);
    var successors :- ReadAddrList(b, unresolved.1);
    Some((Block(range.0, successors.0, insns.0, unresolved.0, terminator.0), successors.1))
  }

  function ReadKind(b: Bytes, at: nat): Read<TableKind> {
    var code :- ReadU8(b, at);
    var k :- TableKindFrom(code.0);
    Some((k, code.1))
  }

  function ReadTable(b: Bytes, at: nat): Read<JumpTable> {
    var a :- ReadU64(b, at);
    var table :- ReadU64(b, a.1);
    var entrySize :- ReadU64(b, table.1);
    var kind :- ReadKind(b, entrySize.1);
    ReadTableTail(b, kind.1, a.0, table.0, entrySize.0, kind.0)
  }

  /** What follows a jump table's kind. */
  function ReadTableTail(b: Bytes, at: nat, a: Addr, table: Addr, entrySize: nat, kind: TableKind): Read<JumpTable> {
    var base :- ReadU64(b, at);
    var shift :- ReadU8(b, base.1);
    var bounded :- ReadBool(b, shift.1);
    var targets :- ReadLongList(b, bounded.1);
    Some((JumpTable(a, table, entrySize, kind, base.0, shift.0, targets.0, bounded.0), targets.1))
  }

  function ReadTables(b: Bytes, at: nat): Read<seq<JumpTable>> {
    var n :- ReadCount32(b, at, MIN_TABLE);
    ReadMany(ReadTable, b, n.1, n.0)
  }

  function ReadHalt(b: Bytes, at: nat): Read<Halt> {
    var code :- ReadU8(b, at);
    var h :- HaltFrom(code.0);
    Some((h, code.1))
  }

  /** What follows a graph's blocks. */
  function ReadCfgTail(b: Bytes, at: nat, entry: Addr, blocks: seq<Block>): Read<Cfg<seq<Block>>> {
    var calls :- ReadAddrList(b, at);
    var indirect :- ReadBool(b, calls.1);
    var halt :- ReadHalt(b, indirect.1);
    var tables :- ReadTables(b, halt.1);
    Some((Cfg(entry, blocks, calls.0, indirect.0, tables.0, halt.0), tables.1))
  }

  function ReadCfg(b: Bytes, at: nat): Read<Cfg<seq<Block>>> {
    var entry :- ReadU64(b, at);
    var n :- ReadCount(b, entry.1, MIN_BLOCK);
    var blocks :- ReadMany(ReadBlock, b, n.1, n.0);
    ReadCfgTail(b, blocks.1, entry.0, blocks.0)
  }

  function ReadFunction(b: Bytes, at: nat): Read<Plain> {
    var entry :- ReadU64(b, at);
    var name :- ReadOptStr(b, entry.1);
    var range :- ReadRange(b, name.1);
    var provenance :- ReadProvenance(b, range.1);
    var cfg :- ReadCfg(b, provenance.1);
    Some((Function(entry.0, name.0, range.0, provenance.0, cfg.0), cfg.1))
  }

  /** The no-return set ends the entry: anything left over is damage. */
  function ReadFoot(b: Bytes, at: nat): Option<seq<Addr>> {
    var noreturn :- ReadLongList(b, at);
    if |b| - noreturn.1 == 0 then Some(noreturn.0) else None
  }

  /** A whole entry. */
  function ReadListing(b: Bytes): Option<Listing> {
    var rounds :- ReadU64(b, 0);
    var n :- ReadCount(b, rounds.1, MIN_FUNCTION);
    var functions :- ReadMany(ReadFunction, b, n.1, n.0);
    var noreturn :- ReadFoot(b, functions.1);
    Some(Listing(functions.0, noreturn, rounds.0))
  }

  // ------------------------------------------------------------------- encoders

  method EncodeProvenance(e: Enc, p: Provenance)
    modifies e
    ensures e.buf == AddProvenance(old(e.buf), p)
  {
    e.U8(EvidenceCode(p.best));
    var n := if |p.corroborating| < 255 then |p.corroborating| else 255;
    e.U8(n);
    var kept := p.corroborating[..n];
    assert kept == Trimmed(p).corroborating;
    ghost var was := e.buf;
    for k := 0 to n
      invariant e.buf == AddMany(AddEvidence, was, kept[..k])
    {
      AddManyStep(AddEvidence, was, kept, k);
      e.U8(EvidenceCode(p.corroborating[k]));
    }
    assert kept[..n] == kept;
  }

  method EncodeBlock(e: Enc, b: Block)
    modifies e
    ensures e.buf == AddBlock(old(e.buf), b)
  {
    e.U64(b.range.start);
    e.U64(b.range.end);
    e.U32(b.insns);
    e.U8(TerminatorCode(b.terminator));
    e.Bool(b.unresolved);
    e.U32(|b.successors|);
    e.Addrs(b.successors);
  }

  method EncodeTable(e: Enc, t: JumpTable)
    modifies e
    ensures e.buf == AddTable(old(e.buf), t)
  {
    e.U64(t.at);
    e.U64(t.table);
    e.U64(t.entrySize);
    e.U8(TableKindCode(t.kind));
    e.U64(t.base);
    e.U8(t.shift);
    e.Bool(t.boundedByScan);
    e.U64(|t.targets|);
    e.Addrs(t.targets);
  }

  method EncodeBlocks(e: Enc, blocks: seq<Block>)
    modifies e
    ensures e.buf == AddBlocks(old(e.buf), blocks)
  {
    for k := 0 to |blocks|
      invariant e.buf == AddMany(AddBlock, old(e.buf), blocks[..k])
    {
      AddManyStep(AddBlock, old(e.buf), blocks, k);
      EncodeBlock(e, blocks[k]);
    }
    assert blocks[..|blocks|] == blocks;
  }

  method EncodeTables(e: Enc, tables: seq<JumpTable>)
    modifies e
    ensures e.buf == AddTables(old(e.buf), tables)
  {
    for k := 0 to |tables|
      invariant e.buf == AddMany(AddTable, old(e.buf), tables[..k])
    {
      AddManyStep(AddTable, old(e.buf), tables, k);
      EncodeTable(e, tables[k]);
    }
    assert tables[..|tables|] == tables;
  }

  method EncodeCfg(e: Enc, c: Cfg<seq<Block>>)
    modifies e
    ensures e.buf == AddCfg(old(e.buf), c)
  {
    e.U64(c.entry);
    e.U64(|c.blocks|);
    EncodeBlocks(e, c.blocks);
    e.U32(|c.calls|);
    e.Addrs(c.calls);
    e.Bool(c.hasIndirect);
    e.U8(HaltCode(c.halt));
    e.U32(|c.tables|);
    EncodeTables(e, c.tables);
  }

  method EncodeFunction(e: Enc, f: Plain)
    modifies e
    ensures e.buf == AddFunction(old(e.buf), f)
  {
    e.U64(f.entry);
    e.OptStr(f.name);
    e.U64(f.range.start);
    e.U64(f.range.end);
    EncodeProvenance(e, f.provenance);
    EncodeCfg(e, f.cfg);
  }

  // ------------------------------------------------------------------- decoders

  method DecodeRange(d: Dec) returns (r: Option<Range>)
    requires d.Valid()
    modifies d
    ensures d.Valid() && Did(r, d.at, ReadRange(d.buf, old(d.at)))
  {
    var start :- d.U64();
    var end :- d.U64();
    return if end < start then None else Some(Range(start, end));
  }

  method DecodeEvidence(d: Dec) returns (r: Option<Evidence>)
    requires d.Valid()
    modifies d
    ensures d.Valid() && Did(r, d.at, ReadEvidence(d.buf, old(d.at)))
  {
    var code :- d.U8();
    return EvidenceFrom(code);
  }

  method DecodeProvenance(d: Dec) returns (r: Option<Provenance>)
    requires d.Valid()
    modifies d
    ensures d.Valid() && Did(r, d.at, ReadProvenance(d.buf, old(d.at)))
  {
    var best :- DecodeEvidence(d);
    var n :- d.U8();
    if n > d.Remaining() {
      return None;
    }
    var more: seq<Evidence> := [];
    ghost var at := d.at;
    for k := 0 to n
      invariant d.Valid() && ReadMany(ReadEvidence, d.buf, at, k) == Some((more, d.at))
    {
      var e := DecodeEvidence(d);
      if e.None? {
        ManyFails(ReadEvidence, d.buf, at, k + 1, n);
        return None;
      }
      more := more + [e.value];
    }
    return Some(Provenance(best, more));
  }

  method DecodeBlock(d: Dec) returns (r: Option<Block>)
    requires d.Valid()
    modifies d
    ensures d.Valid() && Did(r, d.at, ReadBlock(d.buf, old(d.at)))
  {
    var range :- DecodeRange(d);
    var insns :- d.U32();
    var code :- d.U8();
    var terminator :- TerminatorFrom(code);
    var unresolved :- d.Bool();
    var n :- d.Count32(8);
    var successors :- d.Addrs(n);
    return Some(Block(range, successors, insns, unresolved, terminator));
  }

  method DecodeTable(d: Dec) returns (r: Option<JumpTable>)
    requires d.Valid()
    modifies d
    ensures d.Valid() && Did(r, d.at, ReadTable(d.buf, old(d.at)))
  {
    var at :- d.U64();
    var table :- d.U64();
    var entrySize :- d.U64();
    var code :- d.U8();
    var kind :- TableKindFrom(code);
    var base :- d.U64();
    var shift :- d.U8();
    var bounded :- d.Bool();
    var n :- d.Count(8);
    var targets :- d.Addrs(n);
    return Some(JumpTable(at, table, entrySize, kind, base, shift, targets, bounded));
  }

  method DecodeBlocks(d: Dec, n: nat) returns (r: Option<seq<Block>>)
    requires d.Valid()
    modifies d
    ensures d.Valid() && Did(r, d.at, ReadMany(ReadBlock, d.buf, old(d.at), n))
  {
    var blocks: seq<Block> := [];
    for k := 0 to n
      invariant d.Valid() && ReadMany(ReadBlock, d.buf, old(d.at), k) == Some((blocks, d.at))
    {
      var b := DecodeBlock(d);
      if b.None? {
        ManyFails(ReadBlock, d.buf, old(d.at), k + 1, n);
        return None;
      }
      blocks := blocks + [b.value];
    }
    return Some(blocks);
  }

  method DecodeTables(d: Dec, n: nat) returns (r: Option<seq<JumpTable>>)
    requires d.Valid()
    modifies d
    ensures d.Valid() && Did(r, d.at, ReadMany(ReadTable, d.buf, old(d.at), n))
  {
    var tables: seq<JumpTable> := [];
    for k := 0 to n
      invariant d.Valid() && ReadMany(ReadTable, d.buf, old(d.at), k) == Some((tables, d.at))
    {
      var t := DecodeTable(d);
      if t.None? {
        ManyFails(ReadTable, d.buf, old(d.at), k + 1, n);
        return None;
      }
      tables := tables + [t.value];
    }
    return Some(tables);
  }

  method DecodeCfg(d: Dec) returns (r: Option<Cfg<seq<Block>>>)
    requires d.Valid()
    modifies d
    ensures d.Valid() && Did(r, d.at, ReadCfg(d.buf, old(d.at)))
  {
    var entry :- d.U64();
    var n :- d.Count(MIN_BLOCK);
    var blocks :- DecodeBlocks(d, n);
    var ncalls :- d.Count32(8);
    var calls :- d.Addrs(ncalls);
    var indirect :- d.Bool();
    var code :- d.U8();
    var halt :- HaltFrom(code);
    var ntables :- d.Count32(MIN_TABLE);
    var tables :- DecodeTables(d, ntables);
    return Some(Cfg(entry, blocks, calls, indirect, tables, halt));
  }

  method DecodeFunction(d: Dec) returns (r: Option<Plain>)
    requires d.Valid()
    modifies d
    ensures d.Valid() && Did(r, d.at, ReadFunction(d.buf, old(d.at)))
  {
    var entry :- d.U64();
    var name :- d.OptStr();
    var range :- DecodeRange(d);
    var provenance :- DecodeProvenance(d);
    var cfg :- DecodeCfg(d);
    return Some(Function(entry, name, range, provenance, cfg));
  }
}
