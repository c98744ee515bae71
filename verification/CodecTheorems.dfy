/** What a cached analysis comes back as. */
module CodecTheorems {
  import opened Ordered
  import opened Image
  import opened Walk
  import opened Wire
  import opened Codec

  // ------------------------------------------------------------ what fits a field

  predicate Addrs64(xs: seq<Addr>) {
    forall x :: x in xs ==> x < 0x1_0000_0000_0000_0000
  }

  predicate FitsRange(r: Range) {
    match r case Range(start, end) => start <= end < 0x1_0000_0000_0000_0000
  }

  predicate FitsBlock(b: Block) {
    match b
    case Block(range, successors, insns, _, _) =>
      FitsRange(range) && insns < 0x1_0000_0000 && |successors| < 0x1_0000_0000 && Addrs64(successors)
  }

  predicate FitsTable(t: JumpTable) {
    match t
    case JumpTable(at, table, entrySize, _, base, shift, targets, _) =>
      at < 0x1_0000_0000_0000_0000 && table < 0x1_0000_0000_0000_0000 && entrySize < 0x1_0000_0000_0000_0000 &&
      base < 0x1_0000_0000_0000_0000 && shift < 0x100 && |targets| < 0x1_0000_0000_0000_0000 && Addrs64(targets)
  }

  predicate FitsCfg(c: Cfg<seq<Block>>) {
    match c
    case Cfg(entry, blocks, calls, _, tables, _) =>
      entry < 0x1_0000_0000_0000_0000 && |blocks| < 0x1_0000_0000_0000_0000 && (forall b :: b in blocks ==> FitsBlock(b)) &&
      |calls| < 0x1_0000_0000 && Addrs64(calls) && |tables| < 0x1_0000_0000 && (forall t :: t in tables ==> FitsTable(t))
  }

  /** The widths of the fields, and names short enough for a 32-bit length. */
  predicate FitsFunction(f: Plain) {
    match f
    case Function(entry, name, range, _, cfg) =>
      entry < 0x1_0000_0000_0000_0000 && FitsRange(range) && FitsCfg(cfg) &&
      (name.Some? ==> |name.value| < 0x1_0000_0000 && Utf8(name.value))
  }

  predicate FitsListing(l: Listing) {
    match l
    case Listing(functions, noreturn, rounds) =>
      rounds < 0x1_0000_0000_0000_0000 && |functions| < 0x1_0000_0000_0000_0000 && |noreturn| < 0x1_0000_0000_0000_0000 &&
      Addrs64(noreturn) && forall f :: f in functions ==> FitsFunction(f)
  }

  // ----------------------------------------------------------------------- sizes

  function BlockSize(b: Block): nat {
    26 + 8 * |b.successors|
  }

  function TableSize(t: JumpTable): nat {
    43 + 8 * |t.targets|
  }

  /** What follows a graph's blocks. */
  function TailSize(c: Cfg<seq<Block>>): nat {
    10 + 8 * |c.calls| + SumBy(TableSize, c.tables)
  }

  function CfgSize(c: Cfg<seq<Block>>): nat {
    16 + SumBy(BlockSize, c.blocks) + TailSize(c)
  }

  function HeadSize(f: Plain): nat {
    27 + (if f.name.Some? then 4 + |f.name.value| else 0) + |Trimmed(f.provenance).corroborating|
  }

  function FunctionSize(f: Plain): nat {
    HeadSize(f) + CfgSize(f.cfg)
  }

  lemma {:induction false} SumOfOnes<T>(size: T -> nat, xs: seq<T>, each: nat)
    requires forall x :: x in xs ==> size(x) == each
    ensures SumBy(size, xs) == each * |xs|
  {
    if xs != [] {
      SumOfOnes(size, xs[..|xs| - 1], each);
    }
  }

  lemma {:induction false} SumAtLeast<T>(size: T -> nat, xs: seq<T>, each: nat)
    requires forall x :: x in xs ==> size(x) >= each
    ensures SumBy(size, xs) >= each * |xs|
  {
    if xs != [] {
      SumAtLeast(size, xs[..|xs| - 1], each);
    }
  }

  lemma AddrsAppend(pre: Bytes, xs: seq<Addr>)
    ensures Appends(AddU64, (x: nat) => 8)
    ensures pre <= AddAddrs(pre, xs) && |AddAddrs(pre, xs)| == |pre| + 8 * |xs|
  {
    var size := (x: nat) => 8;
    ManyAppends(AddU64, size, pre, xs);
    SumOfOnes(size, xs, 8);
  }

  lemma ProvenanceAppends(pre: Bytes, p: Provenance)
    ensures Appends(AddEvidence, (e: Evidence) => 1)
    ensures pre <= AddProvenance(pre, p) && |AddProvenance(pre, p)| == |pre| + 2 + |Trimmed(p).corroborating|
  {
    var size := (e: Evidence) => 1;
    var kept := Trimmed(p).corroborating;
    ManyAppends(AddEvidence, size, AddU8(AddEvidence(pre, p.best), |kept|), kept);
    SumOfOnes(size, kept, 1);
  }

  lemma BlockAppends(pre: Bytes, b: Block)
    ensures pre <= AddBlock(pre, b) && |AddBlock(pre, b)| == |pre| + BlockSize(b)
  {
    var head := AddBool(AddTerminator(AddU32(AddRange(pre, b.range), b.insns), b.terminator), b.unresolved);
    assert pre <= head;
    AddrsAppend(AddU32(head, |b.successors|), b.successors);
  }

  lemma BlocksAppend()
    ensures Appends(AddBlock, BlockSize)
  {
    forall p, x ensures p <= AddBlock(p, x) && |AddBlock(p, x)| == |p| + BlockSize(x) {
      BlockAppends(p, x);
    }
  }

  lemma LongListAppends(pre: Bytes, xs: seq<Addr>)
    ensures pre <= AddLongList(pre, xs) && |AddLongList(pre, xs)| == |pre| + 8 + 8 * |xs|
  {
    AddrsAppend(AddU64(pre, |xs|), xs);
  }

  lemma TableAppends(pre: Bytes, t: JumpTable)
    ensures pre <= AddTable(pre, t) && |AddTable(pre, t)| == |pre| + TableSize(t)
  {
    var head := AddKind(AddU64(AddU64(AddU64(pre, t.at), t.table), t.entrySize), t.kind);
    var more := AddBool(AddU8(AddU64(head, t.base), t.shift), t.boundedByScan);
    assert pre <= head <= more;
    LongListAppends(more, t.targets);
  }

  lemma TablesAppend()
    ensures Appends(AddTable, TableSize)
  {
    forall p, x ensures p <= AddTable(p, x) && |AddTable(p, x)| == |p| + TableSize(x) {
      TableAppends(p, x);
    }
  }

  lemma TailAppends(pre: Bytes, c: Cfg<seq<Block>>)
    ensures pre <= AddCfgTail(pre, c) && |AddCfgTail(pre, c)| == |pre| + TailSize(c)
  {
    AddrsAppend(AddU32(pre, |c.calls|), c.calls);
    var calls := AddAddrs(AddU32(pre, |c.calls|), c.calls);
    var more := AddU32(AddHalt(AddBool(calls, c.hasIndirect), c.halt), |c.tables|);
    assert pre <= calls <= more;
    TablesAppend();
    ManyAppends(AddTable, TableSize, more, c.tables);
  }

  lemma CfgAppends(pre: Bytes, c: Cfg<seq<Block>>)
    ensures pre <= AddCfgHead(pre, c) <= AddCfg(pre, c) && |AddCfg(pre, c)| == |pre| + CfgSize(c)
    ensures |AddCfgHead(pre, c)| == |pre| + 16
  {
    BlocksAppend();
    ManyAppends(AddBlock, BlockSize, AddCfgHead(pre, c), c.blocks);
    TailAppends(AddBlocks(AddCfgHead(pre, c), c.blocks), c);
  }

  lemma FunctionAppends(pre: Bytes, f: Plain)
    ensures pre <= AddFunctionHead(pre, f) <= AddFunction(pre, f) && |AddFunction(pre, f)| == |pre| + FunctionSize(f)
    ensures |AddFunctionHead(pre, f)| == |pre| + HeadSize(f)
  {
    var named := AddOptStr(AddU64(pre, f.entry), f.name);
    assert pre <= named <= AddRange(named, f.range);
    ProvenanceAppends(AddRange(named, f.range), f.provenance);
    CfgAppends(AddFunctionHead(pre, f), f.cfg);
  }

  lemma FunctionsAppend()
    ensures Appends(AddFunction, FunctionSize)
  {
    forall p, x ensures p <= AddFunction(p, x) && |AddFunction(p, x)| == |p| + FunctionSize(x) {
      FunctionAppends(p, x);
    }
  }

  // --------------------------------------------------------------- reading it back

  lemma AddrsRead(b: Bytes, pre: Bytes, xs: seq<Addr>)
    requires AddAddrs(pre, xs) <= b && Addrs64(xs)
    ensures Reads(ReadAddrs(b, |pre|, |xs|), b, pre, xs, AddAddrs(pre, xs))
  {
    AddrsAppend(pre, xs);
    forall p: Bytes, x: nat | x in xs && AddU64(p, x) <= b ensures Reads(ReadU64(b, |p|), b, p, x, AddU64(p, x)) {
      U64Reads(b, p, x);
    }
    AllRead(ReadU64, AddU64, (x: nat) => 8, b, pre, xs);
  }

  /** A 32-bit count of things that follow passes its check. */
  lemma Count32Reads(b: Bytes, pre: Bytes, n: nat, least: nat)
    requires AddU32(pre, n) <= b && n < 0x1_0000_0000 && n * least <= |b| - |AddU32(pre, n)|
    ensures Reads(ReadCount32(b, |pre|, least), b, pre, n, AddU32(pre, n))
  {
    U32Reads(b, pre, n);
  }

  lemma AddrListReads(b: Bytes, pre: Bytes, xs: seq<Addr>)
    requires AddAddrs(AddU32(pre, |xs|), xs) <= b && |xs| < 0x1_0000_0000 && Addrs64(xs)
    ensures Reads(ReadAddrList(b, |pre|), b, pre, xs, AddAddrs(AddU32(pre, |xs|), xs))
  {
    AddrsAppend(AddU32(pre, |xs|), xs);
    AddrsRead(b, AddU32(pre, |xs|), xs);
    Count32Reads(b, pre, |xs|, 8);
  }

  /** A 64-bit count passes its check exactly when what is left is long enough. */
  lemma CountReads(b: Bytes, pre: Bytes, n: nat, least: nat)
    requires AddU64(pre, n) <= b && n < 0x1_0000_0000_0000_0000 && least > 0
    ensures if n * least <= |b| - |AddU64(pre, n)|
      then Reads(ReadCount(b, |pre|, least), b, pre, n, AddU64(pre, n))
      else ReadCount(b, |pre|, least) == None
  {
    U64Reads(b, pre, n);
  }

  lemma LongListReads(b: Bytes, pre: Bytes, xs: seq<Addr>)
    requires AddLongList(pre, xs) <= b && |xs| < 0x1_0000_0000_0000_0000 && Addrs64(xs)
    ensures Reads(ReadLongList(b, |pre|), b, pre, xs, AddLongList(pre, xs))
  {
    LongListAppends(pre, xs);
    AddrsRead(b, AddU64(pre, |xs|), xs);
    CountReads(b, pre, |xs|, 8);
  }

  lemma RangeReads(b: Bytes, pre: Bytes, r: Range)
    requires AddRange(pre, r) <= b && FitsRange(r)
    ensures Reads(ReadRange(b, |pre|), b, pre, r, AddRange(pre, r))
  {
    U64Reads(b, AddU64(pre, r.start), r.end);
    U64Reads(b, pre, r.start);
  }

  lemma EvidenceReads(b: Bytes, pre: Bytes, e: Evidence)
    requires AddEvidence(pre, e) <= b
    ensures Reads(ReadEvidence(b, |pre|), b, pre, e, AddEvidence(pre, e))
  {
    CodesInvert();
    U8Reads(b, pre, EvidenceCode(e));
  }

  lemma ProvenanceReads(b: Bytes, pre: Bytes, p: Provenance)
    requires AddProvenance(pre, p) <= b
    ensures Reads(ReadProvenance(b, |pre|), b, pre, Trimmed(p), AddProvenance(pre, p))
  {
    var kept := Trimmed(p).corroborating;
    var best := AddEvidence(pre, p.best);
    var head := AddU8(best, |kept|);
    ProvenanceAppends(pre, p);
    forall q: Bytes, x | x in kept && AddEvidence(q, x) <= b ensures Reads(ReadEvidence(b, |q|), b, q, x, AddEvidence(q, x)) {
      EvidenceReads(b, q, x);
    }
    AllRead(ReadEvidence, AddEvidence, (e: Evidence) => 1, b, head, kept);
    U8Reads(b, best, |kept|);
    EvidenceReads(b, pre, p.best);
  }

  lemma TerminatorReads(b: Bytes, pre: Bytes, t: Terminator)
    requires AddTerminator(pre, t) <= b
    ensures Reads(ReadTerminator(b, |pre|), b, pre, t, AddTerminator(pre, t))
  {
    CodesInvert();
    U8Reads(b, pre, TerminatorCode(t));
  }

  lemma KindReads(b: Bytes, pre: Bytes, k: TableKind)
    requires AddKind(pre, k) <= b
    ensures Reads(ReadKind(b, |pre|), b, pre, k, AddKind(pre, k))
  {
    CodesInvert();
    U8Reads(b, pre, TableKindCode(k));
  }

  lemma BlockReads(b: Bytes, pre: Bytes, x: Block)
    requires AddBlock(pre, x) <= b && FitsBlock(x)
    ensures Reads(ReadBlock(b, |pre|), b, pre, x, AddBlock(pre, x))
  {
    var range := AddRange(pre, x.range);
    var insns := AddU32(range, x.insns);
    var terminator := AddTerminator(insns, x.terminator);
    AddrListReads(b, AddBool(terminator, x.unresolved), x.successors);
    BoolReads(b, terminator, x.unresolved);
    TerminatorReads(b, insns, x.terminator);
    U32Reads(b, range, x.insns);
    RangeReads(b, pre, x.range);
  }

  lemma TableTailReads(b: Bytes, pre: Bytes, t: JumpTable)
    requires AddTableTail(pre, t) <= b && FitsTable(t)
    ensures Reads(ReadTableTail(b, |pre|, t.at, t.table, t.entrySize, t.kind), b, pre, t, AddTableTail(pre, t))
  {
    var base := AddU64(pre, t.base);
    var shift := AddU8(base, t.shift);
    LongListReads(b, AddBool(shift, t.boundedByScan), t.targets);
    BoolReads(b, shift, t.boundedByScan);
    U8Reads(b, base, t.shift);
    U64Reads(b, pre, t.base);
  }

  lemma TableReads(b: Bytes, pre: Bytes, t: JumpTable)
    requires AddTable(pre, t) <= b && FitsTable(t)
    ensures Reads(ReadTable(b, |pre|), b, pre, t, AddTable(pre, t))
  {
    var at := AddU64(pre, t.at);
    var table := AddU64(at, t.table);
    var entrySize := AddU64(table, t.entrySize);
    TableTailReads(b, AddKind(entrySize, t.kind), t);
    KindReads(b, entrySize, t.kind);
    U64Reads(b, table, t.entrySize);
    U64Reads(b, at, t.table);
    U64Reads(b, pre, t.at);
  }

  lemma BlocksRead(b: Bytes, pre: Bytes, xs: seq<Block>)
    requires AddBlocks(pre, xs) <= b && forall x :: x in xs ==> FitsBlock(x)
    ensures Reads(ReadMany(ReadBlock, b, |pre|, |xs|), b, pre, xs, AddBlocks(pre, xs))
  {
    BlocksAppend();
    forall p: Bytes, x | x in xs && AddBlock(p, x) <= b ensures Reads(ReadBlock(b, |p|), b, p, x, AddBlock(p, x)) {
      BlockReads(b, p, x);
    }
    AllRead(ReadBlock, AddBlock, BlockSize, b, pre, xs);
  }

  lemma TablesTake(b: Bytes, pre: Bytes, xs: seq<JumpTable>)
    requires AddTables(pre, xs) <= b
    ensures 43 * |xs| <= |b| - |pre|
  {
    TablesAppend();
    ManyAppends(AddTable, TableSize, pre, xs);
    SumAtLeast(TableSize, xs, 43);
  }

  lemma TablesRead(b: Bytes, pre: Bytes, xs: seq<JumpTable>)
    requires AddTables(pre, xs) <= b && forall x :: x in xs ==> FitsTable(x)
    ensures Reads(ReadMany(ReadTable, b, |pre|, |xs|), b, pre, xs, AddTables(pre, xs))
  {
    TablesAppend();
    forall p: Bytes, x | x in xs && AddTable(p, x) <= b ensures Reads(ReadTable(b, |p|), b, p, x, AddTable(p, x)) {
      TableReads(b, p, x);
    }
    AllRead(ReadTable, AddTable, TableSize, b, pre, xs);
  }

  lemma TableListReads(b: Bytes, pre: Bytes, xs: seq<JumpTable>)
    requires AddTables(AddU32(pre, |xs|), xs) <= b && |xs| < 0x1_0000_0000 && forall x :: x in xs ==> FitsTable(x)
    ensures Reads(ReadTables(b, |pre|), b, pre, xs, AddTables(AddU32(pre, |xs|), xs))
  {
    var head, n := AddU32(pre, |xs|), |xs|;
    TablesRead(b, head, xs);
    assert n * MIN_TABLE <= |b| - |head| by {
      TablesTake(b, head, xs);
    }
    Count32Reads(b, pre, n, MIN_TABLE);
  }

  lemma HaltReads(b: Bytes, pre: Bytes, h: Halt)
    requires AddHalt(pre, h) <= b
    ensures Reads(ReadHalt(b, |pre|), b, pre, h, AddHalt(pre, h))
  {
    CodesInvert();
    U8Reads(b, pre, HaltCode(h));
  }

  lemma TailReads(b: Bytes, blocks: Bytes, c: Cfg<seq<Block>>)
    requires AddCfgTail(blocks, c) <= b && FitsCfg(c)
    ensures Reads(ReadCfgTail(b, |blocks|, c.entry, c.blocks), b, blocks, c, AddCfgTail(blocks, c))
  {
    var calls := AddAddrs(AddU32(blocks, |c.calls|), c.calls);
    var flag := AddBool(calls, c.hasIndirect);
    TableListReads(b, AddHalt(flag, c.halt), c.tables);
    HaltReads(b, flag, c.halt);
    BoolReads(b, calls, c.hasIndirect);
    AddrListReads(b, blocks, c.calls);
  }

  /** A graph comes back whole exactly when the bytes after its block count are
      30 to a block or more; otherwise the count is refused. */
  lemma CfgReads(b: Bytes, pre: Bytes, c: Cfg<seq<Block>>)
    requires AddCfg(pre, c) <= b && FitsCfg(c)
    ensures if MIN_BLOCK * |c.blocks| <= |b| - |AddCfgHead(pre, c)|
      then Reads(ReadCfg(b, |pre|), b, pre, c, AddCfg(pre, c))
      else ReadCfg(b, |pre|) == None
  {
    CfgAppends(pre, c);
    var head := AddCfgHead(pre, c);
    var blocks := AddBlocks(head, c.blocks);
    TailReads(b, blocks, c);
    CountReads(b, AddU64(pre, c.entry), |c.blocks|, MIN_BLOCK);
    U64Reads(b, pre, c.entry);
    if MIN_BLOCK * |c.blocks| <= |b| - |head| {
      BlocksRead(b, head, c.blocks);
    }
  }

  /** What comes back of a function: all of it but corroborations past 255. */
  function Cached(f: Plain): Plain {
    f.(provenance := Trimmed(f.provenance))
  }

  lemma FunctionReads(b: Bytes, pre: Bytes, f: Plain)
    requires AddFunction(pre, f) <= b && FitsFunction(f)
    ensures if MIN_BLOCK * |f.cfg.blocks| <= |b| - |AddCfgHead(AddFunctionHead(pre, f), f.cfg)|
      then Reads(ReadFunction(b, |pre|), b, pre, Cached(f), AddFunction(pre, f))
      else ReadFunction(b, |pre|) == None
  {
    var entry := AddU64(pre, f.entry);
    var name := AddOptStr(entry, f.name);
    var range := AddRange(name, f.range);
    var head := AddFunctionHead(pre, f);
    FunctionAppends(pre, f);
    CfgReads(b, head, f.cfg);
    ProvenanceReads(b, range, f.provenance);
    RangeReads(b, name, f.range);
    OptStrReads(b, entry, f.name);
    U64Reads(b, pre, f.entry);
  }

  // ------------------------------------------------------------ the whole listing

  function AllCached(fs: seq<Plain>): (r: seq<Plain>)
    ensures |r| == |fs| && forall k :: 0 <= k < |fs| ==> r[k] == Cached(fs[k])
  {
    seq(|fs|, k requires 0 <= k < |fs| => Cached(fs[k]))
  }

  /** Function `k`'s block count passes its check in this file. */
  predicate RoomAt(b: Bytes, pre: Bytes, fs: seq<Plain>, k: nat)
    requires k < |fs|
  {
    match fs[k]
    case Function(_, _, _, _, cfg) =>
      MIN_BLOCK * |cfg.blocks| <= |b| - |AddCfgHead(AddFunctionHead(AddFunctions(pre, fs[..k]), fs[k]), cfg)|
  }

  lemma FunctionsStep(b: Bytes, pre: Bytes, fs: seq<Plain>, k: nat)
    requires k < |fs| && AddFunctions(pre, fs) <= b && FitsFunction(fs[k])
    ensures var p := AddFunctions(pre, fs[..k]);
      if RoomAt(b, pre, fs, k) then ReadFunction(b, |p|) == Some((Cached(fs[k]), |AddFunctions(pre, fs[..k + 1])|))
      else ReadFunction(b, |p|) == None
  {
    FunctionsAppend();
    AddManyStep(AddFunction, pre, fs, k);
    ManyPrefix(AddFunction, FunctionSize, pre, fs, k + 1);
    FunctionReads(b, AddFunctions(pre, fs[..k]), fs[k]);
  }

  function Degree(b: Block): nat {
    |b.successors|
  }

  /** How many successor edges a graph has. */
  function Edges(blocks: seq<Block>): nat {
    SumBy(Degree, blocks)
  }

  lemma {:induction false} BlocksTake(blocks: seq<Block>)
    ensures SumBy(BlockSize, blocks) == 26 * |blocks| + 8 * Edges(blocks)
  {
    if blocks != [] {
      BlocksTake(blocks[..|blocks| - 1]);
    }
  }

  /** Thirty bytes are asked for each block and a block with no successors takes
      twenty-six: the edges and everything after the blocks must make up the rest. */
  predicate CountHolds(l: Listing, k: nat)
    requires k < |l.functions|
  {
    match l
    case Listing(functions, noreturn, _) =>
      var c := functions[k].cfg;
      4 * |c.blocks| <= 8 * Edges(c.blocks) + TailSize(c) + SumBy(FunctionSize, functions[k + 1..]) + 8 + 8 * |noreturn|
  }

  lemma {:induction false} SumSplit<T>(size: T -> nat, xs: seq<T>, k: nat)
    requires k < |xs|
    ensures SumBy(size, xs) == SumBy(size, xs[..k]) + size(xs[k]) + SumBy(size, xs[k + 1..])
    decreases |xs|
  {
    var last := |xs| - 1;
    var less := xs[..last];
    if k < last {
      SumSplit(size, less, k);
      assert less[..k] == xs[..k] && less[k + 1..] == xs[k + 1..][..last - k - 1];
    } else {
      assert xs[..k] == less && xs[k + 1..] == [];
    }
  }

  lemma ListingSize(l: Listing)
    ensures |ListingBytes(l)| == 24 + SumBy(FunctionSize, l.functions) + 8 * |l.noreturn|
    ensures AddFunctions(AddListingHead(l), l.functions) <= ListingBytes(l)
    ensures |AddListingHead(l)| == 16 && AddListingHead(l) <= ListingBytes(l)
    ensures |AddFunctions(AddListingHead(l), l.functions)| == 16 + SumBy(FunctionSize, l.functions)
  {
    FunctionsAppend();
    var head := AddListingHead(l);
    ManyAppends(AddFunction, FunctionSize, head, l.functions);
    LongListAppends(AddFunctions(head, l.functions), l.noreturn);
  }

  lemma RoomIff(l: Listing, k: nat)
    requires k < |l.functions|
    ensures RoomAt(ListingBytes(l), AddListingHead(l), l.functions, k) <==> CountHolds(l, k)
  {
    var fs, f := l.functions, l.functions[k];
    ListingSize(l);
    FunctionsAppend();
    ManyAppends(AddFunction, FunctionSize, AddListingHead(l), fs[..k]);
    FunctionAppends(AddFunctions(AddListingHead(l), fs[..k]), f);
    CfgAppends(AddFunctionHead(AddFunctions(AddListingHead(l), fs[..k]), f), f.cfg);
    SumSplit(FunctionSize, fs, k);
    BlocksTake(f.cfg.blocks);
  }

  /** Every function's count holds. */
  predicate Roomy(l: Listing) {
    forall k: nat :: k < |l.functions| ==> CountHolds(l, k)
  }

  lemma FitsAt(l: Listing, k: nat)
    requires FitsListing(l) && k < |l.functions|
    ensures FitsFunction(l.functions[k])
  {
  }

  /** Where function `k` starts. */
  function Place(l: Listing, k: nat): nat {
    if k <= |l.functions| then |AddFunctions(AddListingHead(l), l.functions[..k])| else 0
  }

  lemma FunctionRead(l: Listing, k: nat)
    requires FitsListing(l) && k < |l.functions|
    ensures ReadFunction(ListingBytes(l), Place(l, k)) ==
      if CountHolds(l, k) then Some((Cached(l.functions[k]), Place(l, k + 1))) else None
  {
    ListingSize(l);
    FitsAt(l, k);
    RoomIff(l, k);
    FunctionsStep(ListingBytes(l), AddListingHead(l), l.functions, k);
  }

  /** The functions come back when every block count passes, and nothing does
      when one fails. */
  lemma FunctionsRead(l: Listing)
    requires FitsListing(l)
    ensures ReadMany(ReadFunction, ListingBytes(l), 16, |l.functions|) ==
      if Roomy(l) then Some((AllCached(l.functions), Place(l, |l.functions|))) else None
  {
    var place, ok := (k: nat) => Place(l, k), (k: nat) => k < |l.functions| && CountHolds(l, k);
    var n, xs := |l.functions|, AllCached(l.functions);
    FunctionSteps(l, place, ok, xs);
    ManyUntil(ReadFunction, ListingBytes(l), place, ok, xs, n);
    WholeSlice(xs, n);
    FirstPlace(l);
    RoomyOk(l, ok);
  }

  lemma WholeSlice<T>(xs: seq<T>, n: nat)
    requires n == |xs|
    ensures xs[..n] == xs
  {
  }

  lemma FirstPlace(l: Listing)
    ensures Place(l, 0) == 16
  {
    assert l.functions[..0] == [];
    assert AddFunctions(AddListingHead(l), []) == AddListingHead(l);
  }

  lemma FunctionSteps(l: Listing, place: nat -> nat, ok: nat -> bool, xs: seq<Plain>)
    requires FitsListing(l) && xs == AllCached(l.functions)
    requires forall k: nat :: place(k) == Place(l, k)
    requires forall k: nat :: ok(k) == (k < |l.functions| && CountHolds(l, k))
    ensures Steps(ReadFunction, ListingBytes(l), place, ok, xs)
  {
    forall k: nat | k < |xs|
      ensures StepAt(ReadFunction, ListingBytes(l), place, ok, xs, k)
    {
      FunctionRead(l, k);
    }
  }

  lemma RoomyOk(l: Listing, ok: nat -> bool)
    requires forall k: nat :: ok(k) == (k < |l.functions| && CountHolds(l, k))
    ensures AllOk(ok, |l.functions|) <==> Roomy(l)
  {
    if AllOk(ok, |l.functions|) {
      forall k: nat | k < |l.functions| ensures CountHolds(l, k) {
        assert ok(k);
      }
    }
  }

  lemma HeadReads(l: Listing)
    requires FitsListing(l)
    ensures ReadU64(ListingBytes(l), 0) == Some((l.rounds, 8))
    ensures ReadCount(ListingBytes(l), 8, MIN_FUNCTION) == Some((|l.functions|, 16))
  {
    var b, empty: Bytes := ListingBytes(l), [];
    ListingSize(l);
    SumAtLeast(FunctionSize, l.functions, 53);
    var rounds := AddU64(empty, l.rounds);
    CountReads(b, rounds, |l.functions|, MIN_FUNCTION);
    U64Reads(b, empty, l.rounds);
  }

  lemma FootReads(l: Listing)
    requires FitsListing(l)
    ensures ReadLongList(ListingBytes(l), Place(l, |l.functions|)) == Some((l.noreturn, |ListingBytes(l)|))
  {
    assert l.functions[..|l.functions|] == l.functions;
    LongListReads(ListingBytes(l), AddFunctions(AddListingHead(l), l.functions), l.noreturn);
  }

  function CachedListing(l: Listing): Listing {
    l.(functions := AllCached(l.functions))
  }

  /** A written listing reads back whole, with no byte left over, exactly when
      every function's block count holds; otherwise nothing reads back. */
  lemma ListingReads(l: Listing)
    requires FitsListing(l)
    ensures ReadListing(ListingBytes(l)) == if Roomy(l) then Some(CachedListing(l)) else None
  {
    HeadReads(l);
    FunctionsRead(l);
    FootReads(l);
  }
}
