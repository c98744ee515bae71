/** A file that is accepted is exactly what writing its contents gives, so no
    damage is read as something else. */
module CodecInverse {
  import opened Ordered
  import opened Image
  import opened Walk
  import opened Wire
  import opened Codec
  import opened CodecTheorems

  lemma AddrsTook(b: Bytes, at: nat, n: nat)
    requires at <= |b| && ReadAddrs(b, at, n).Some?
    ensures var p := ReadAddrs(b, at, n).value; Took(b, at, p, AddAddrs(b[..at], p.0)) && Addrs64(p.0) && |p.0| == n
  {
    var fits := (x: nat) => x < 0x1_0000_0000_0000_0000;
    forall q: nat | q <= |b| ensures Takes(ReadU64, AddU64, fits, b, q) {
      if ReadU64(b, q).Some? {
        U64Took(b, q);
      }
    }
    ManyTook(ReadU64, AddU64, fits, b, at, n);
    var xs := ReadAddrs(b, at, n).value.0;
    assert forall x :: x in xs ==> fits(x);
  }

  lemma AddrListTook(b: Bytes, at: nat)
    requires at <= |b| && ReadAddrList(b, at).Some?
    ensures var p := ReadAddrList(b, at).value;
      Took(b, at, p, AddAddrs(AddU32(b[..at], |p.0|), p.0)) && Addrs64(p.0) && |p.0| < 0x1_0000_0000
  {
    U32Took(b, at);
    var n := ReadCount32(b, at, 8).value;
    AddrsTook(b, n.1, n.0);
  }

  lemma LongListTook(b: Bytes, at: nat)
    requires at <= |b| && ReadLongList(b, at).Some?
    ensures var p := ReadLongList(b, at).value;
      Took(b, at, p, AddLongList(b[..at], p.0)) && Addrs64(p.0) && |p.0| < 0x1_0000_0000_0000_0000
  {
    U64Took(b, at);
    var n := ReadCount(b, at, 8).value;
    AddrsTook(b, n.1, n.0);
  }

  lemma RangeTook(b: Bytes, at: nat)
    requires at <= |b| && ReadRange(b, at).Some?
    ensures var p := ReadRange(b, at).value; Took(b, at, p, AddRange(b[..at], p.0)) && FitsRange(p.0)
  {
    U64Took(b, at);
    U64Took(b, ReadU64(b, at).value.1);
  }

  lemma EvidenceTook(b: Bytes, at: nat)
    requires at <= |b| && ReadEvidence(b, at).Some?
    ensures var p := ReadEvidence(b, at).value; Took(b, at, p, AddEvidence(b[..at], p.0))
  {
    U8Took(b, at);
    CodesInvert();
  }

  lemma ProvenanceTook(b: Bytes, at: nat)
    requires at <= |b| && ReadProvenance(b, at).Some?
    ensures var p := ReadProvenance(b, at).value;
      Took(b, at, p, AddProvenance(b[..at], p.0)) && Trimmed(p.0) == p.0
  {
    EvidenceTook(b, at);
    var best := ReadEvidence(b, at).value;
    U8Took(b, best.1);
    var n := ReadU8(b, best.1).value;
    var fits := (e: Evidence) => true;
    forall q: nat | q <= |b| ensures Takes(ReadEvidence, AddEvidence, fits, b, q) {
      if ReadEvidence(b, q).Some? {
        EvidenceTook(b, q);
      }
    }
    ManyTook(ReadEvidence, AddEvidence, fits, b, n.1, n.0);
  }

  lemma TerminatorTook(b: Bytes, at: nat)
    requires at <= |b| && ReadTerminator(b, at).Some?
    ensures var p := ReadTerminator(b, at).value; Took(b, at, p, AddTerminator(b[..at], p.0))
  {
    U8Took(b, at);
    CodesInvert();
  }

  lemma HaltTook(b: Bytes, at: nat)
    requires at <= |b| && ReadHalt(b, at).Some?
    ensures var p := ReadHalt(b, at).value; Took(b, at, p, AddHalt(b[..at], p.0))
  {
    U8Took(b, at);
    CodesInvert();
  }

  lemma KindTook(b: Bytes, at: nat)
    requires at <= |b| && ReadKind(b, at).Some?
    ensures var p := ReadKind(b, at).value; Took(b, at, p, AddKind(b[..at], p.0))
  {
    U8Took(b, at);
    CodesInvert();
  }

  lemma BlockTook(b: Bytes, at: nat)
    requires at <= |b| && ReadBlock(b, at).Some?
    ensures var p := ReadBlock(b, at).value; Took(b, at, p, AddBlock(b[..at], p.0)) && FitsBlock(p.0)
  {
    RangeTook(b, at);
    var range := ReadRange(b, at).value;
    U32Took(b, range.1);
    var insns := ReadU32(b, range.1).value;
    TerminatorTook(b, insns.1);
    var terminator := ReadTerminator(b, insns.1).value;
    BoolTook(b, terminator.1);
    AddrListTook(b, ReadBool(b, terminator.1).value.1);
  }

  lemma TableTailTook(b: Bytes, at: nat, a: Addr, table: Addr, entrySize: nat, kind: TableKind)
    requires at <= |b| && ReadTableTail(b, at, a, table, entrySize, kind).Some?
    requires a < 0x1_0000_0000_0000_0000 && table < 0x1_0000_0000_0000_0000 && entrySize < 0x1_0000_0000_0000_0000
    ensures var p := ReadTableTail(b, at, a, table, entrySize, kind).value;
      Took(b, at, p, AddTableTail(b[..at], p.0)) && FitsTable(p.0) &&
      p.0.at == a && p.0.table == table && p.0.entrySize == entrySize && p.0.kind == kind
  {
    U64Took(b, at);
    var base := ReadU64(b, at).value;
    U8Took(b, base.1);
    var shift := ReadU8(b, base.1).value;
    BoolTook(b, shift.1);
    LongListTook(b, ReadBool(b, shift.1).value.1);
  }

  lemma TableTook(b: Bytes, at: nat)
    requires at <= |b| && ReadTable(b, at).Some?
    ensures var p := ReadTable(b, at).value; Took(b, at, p, AddTable(b[..at], p.0)) && FitsTable(p.0)
  {
    U64Took(b, at);
    var a := ReadU64(b, at).value;
    U64Took(b, a.1);
    var table := ReadU64(b, a.1).value;
    U64Took(b, table.1);
    var entrySize := ReadU64(b, table.1).value;
    KindTook(b, entrySize.1);
    var kind := ReadKind(b, entrySize.1).value;
    TableTailTook(b, kind.1, a.0, table.0, entrySize.0, kind.0);
  }

  lemma BlocksTook(b: Bytes, at: nat, n: nat)
    requires at <= |b| && ReadMany(ReadBlock, b, at, n).Some?
    ensures var p := ReadMany(ReadBlock, b, at, n).value;
      Took(b, at, p, AddBlocks(b[..at], p.0)) && (forall x :: x in p.0 ==> FitsBlock(x))
  {
    forall q: nat | q <= |b| ensures Takes(ReadBlock, AddBlock, FitsBlock, b, q) {
      if ReadBlock(b, q).Some? {
        BlockTook(b, q);
      }
    }
    ManyTook(ReadBlock, AddBlock, FitsBlock, b, at, n);
  }

  lemma TablesTook(b: Bytes, at: nat)
    requires at <= |b| && ReadTables(b, at).Some?
    ensures var p := ReadTables(b, at).value;
      Took(b, at, p, AddTables(AddU32(b[..at], |p.0|), p.0)) && |p.0| < 0x1_0000_0000 && (forall x :: x in p.0 ==> FitsTable(x))
  {
    U32Took(b, at);
    var n := ReadU32(b, at).value;
    forall q: nat | q <= |b| ensures Takes(ReadTable, AddTable, FitsTable, b, q) {
      if ReadTable(b, q).Some? {
        TableTook(b, q);
      }
    }
    ManyTook(ReadTable, AddTable, FitsTable, b, n.1, n.0);
  }

  lemma TailTook(b: Bytes, at: nat, entry: Addr, blocks: seq<Block>)
    requires at <= |b| && ReadCfgTail(b, at, entry, blocks).Some?
    requires entry < 0x1_0000_0000_0000_0000 && |blocks| < 0x1_0000_0000_0000_0000 && forall x :: x in blocks ==> FitsBlock(x)
    ensures var p := ReadCfgTail(b, at, entry, blocks).value;
      Took(b, at, p, AddCfgTail(b[..at], p.0)) && FitsCfg(p.0) && p.0.entry == entry && p.0.blocks == blocks
  {
    AddrListTook(b, at);
    var calls := ReadAddrList(b, at).value;
    BoolTook(b, calls.1);
    var indirect := ReadBool(b, calls.1).value;
    HaltTook(b, indirect.1);
    TablesTook(b, ReadHalt(b, indirect.1).value.1);
  }

  lemma CfgTook(b: Bytes, at: nat)
    requires at <= |b| && ReadCfg(b, at).Some?
    ensures var p := ReadCfg(b, at).value; Took(b, at, p, AddCfg(b[..at], p.0)) && FitsCfg(p.0)
  {
    U64Took(b, at);
    var entry := ReadU64(b, at).value;
    U64Took(b, entry.1);
    var n := ReadCount(b, entry.1, MIN_BLOCK).value;
    BlocksTook(b, n.1, n.0);
    var blocks := ReadMany(ReadBlock, b, n.1, n.0).value;
    TailTook(b, blocks.1, entry.0, blocks.0);
  }

  lemma FunctionTook(b: Bytes, at: nat)
    requires at <= |b| && ReadFunction(b, at).Some?
    ensures var p := ReadFunction(b, at).value;
      Took(b, at, p, AddFunction(b[..at], p.0)) && FitsFunction(p.0) && Cached(p.0) == p.0
  {
    U64Took(b, at);
    var entry := ReadU64(b, at).value;
    OptStrTook(b, entry.1);
    var name := ReadOptStr(b, entry.1).value;
    RangeTook(b, name.1);
    var range := ReadRange(b, name.1).value;
    ProvenanceTook(b, range.1);
    CfgTook(b, ReadProvenance(b, range.1).value.1);
  }

  lemma FunctionsTook(b: Bytes, at: nat, n: nat)
    requires at <= |b| && ReadMany(ReadFunction, b, at, n).Some?
    ensures var p := ReadMany(ReadFunction, b, at, n).value;
      Took(b, at, p, AddFunctions(b[..at], p.0)) && (forall f :: f in p.0 ==> FitsFunction(f) && Cached(f) == f)
  {
    var fits := (f: Plain) => FitsFunction(f) && Cached(f) == f;
    forall q: nat | q <= |b| ensures Takes(ReadFunction, AddFunction, fits, b, q) {
      if ReadFunction(b, q).Some? {
        FunctionTook(b, q);
      }
    }
    ManyTook(ReadFunction, AddFunction, fits, b, at, n);
    var fs := ReadMany(ReadFunction, b, at, n).value.0;
    assert forall f :: f in fs ==> fits(f);
  }

  lemma ListingTook(b: Bytes)
    requires ReadListing(b).Some?
    ensures var l := ReadListing(b).value; ListingBytes(l) == b && FitsListing(l) && CachedListing(l) == l
  {
    U64Took(b, 0);
    var rounds := ReadU64(b, 0).value;
    U64Took(b, rounds.1);
    var n := ReadCount(b, rounds.1, MIN_FUNCTION).value;
    FunctionsTook(b, n.1, n.0);
    var functions := ReadMany(ReadFunction, b, n.1, n.0).value;
    FootRead(b, functions.1);
    LongListTook(b, functions.1);
    PiecesWhole(b, rounds, n, functions, ReadLongList(b, functions.1).value);
    AllCachedSame(functions.0);
  }

  lemma AllCachedSame(fs: seq<Plain>)
    requires forall f :: f in fs ==> Cached(f) == f
    ensures AllCached(fs) == fs
  {
    forall k | 0 <= k < |fs| ensures AllCached(fs)[k] == fs[k] {
    }
  }

  /** A file that was read ends where its list of no-return functions does. */
  lemma FootRead(b: Bytes, at: nat)
    requires ReadFoot(b, at).Some?
    ensures ReadLongList(b, at).Some?
    ensures ReadLongList(b, at).value.1 == |b| && ReadFoot(b, at) == Some(ReadLongList(b, at).value.0)
  {
  }

  /** The pieces read, one after another, are the whole file. */
  lemma PiecesWhole(b: Bytes, rounds: (nat, nat), n: (nat, nat), functions: (seq<Plain>, nat), foot: (seq<Addr>, nat))
    requires Took(b, 0, rounds, AddU64(b[..0], rounds.0))
    requires rounds.1 <= |b| && Took(b, rounds.1, n, AddU64(b[..rounds.1], n.0)) && |functions.0| == n.0
    requires n.1 <= |b| && Took(b, n.1, functions, AddFunctions(b[..n.1], functions.0))
    requires functions.1 <= |b| && Took(b, functions.1, foot, AddLongList(b[..functions.1], foot.0)) && foot.1 == |b|
    ensures ListingBytes(Listing(functions.0, foot.0, rounds.0)) == b
  {
    var l := Listing(functions.0, foot.0, rounds.0);
    var empty: Bytes := [];
    assert b[..0] == empty;
    assert AddListingHead(l) == b[..n.1];
    assert AddFunctions(AddListingHead(l), l.functions) == b[..functions.1];
    assert b[..|b|] == b;
  }

  /** A file is accepted as `l` exactly when it is `l` as written, `l` fits its
      fields, no function has more than 255 corroborations, and every block
      count holds. */
  lemma AcceptedIff(b: Bytes, l: Listing)
    ensures ReadListing(b) == Some(l) <==> FitsListing(l) && CachedListing(l) == l && Roomy(l) && b == ListingBytes(l)
  {
    if ReadListing(b) == Some(l) {
      ListingTook(b);
      ListingReads(l);
    } else if FitsListing(l) {
      ListingReads(l);
    }
  }
}
