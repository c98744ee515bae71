/** A whole analysis through the cache: functions by entry, blocks in a table
    shared by the program (crates/e5r-analysis/src/codec.rs). */
module CachedAnalysis {
  import opened Ordered
  import opened Image
  import opened Walk
  import opened BlockIndex
  import opened Interner
  import opened Wire
  import opened Cursor
  import opened Codec
  import opened CodecTheorems
  import opened CodecInverse

  /** Functions by entry, the functions that never return, and the rounds taken. */
  datatype Analysis<+B> = Analysis(functions: map<Addr, Function<B>>, noreturn: set<Addr>, rounds: nat)

  type Shared = Function<Blocks>

  /** The same function with its blocks held another way. */
  function Reblock<A, B>(f: Function<A>, blocks: B): Function<B> {
    Function(f.entry, f.name, f.range, f.provenance,
             Cfg(f.cfg.entry, blocks, f.cfg.calls, f.cfg.hasIndirect, f.cfg.tables, f.cfg.halt))
  }

  /** Every id is one its table holds, as every id handed out is. */
  ghost predicate Held(b: Blocks) {
    b.table.Valid() && forall k :: 0 <= k < |b.ids| ==> b.ids[k] < |b.table.Entries()|
  }

  ghost function BlocksOf(b: Blocks): (r: seq<Block>)
    requires Held(b)
    ensures |r| == |b.ids| && forall k :: 0 <= k < |r| ==> r[k] == b.At(k).block
  {
    seq(|b.ids|, k requires 0 <= k < |b.ids| => b.At(k).block)
  }

  /** The function as a reader of its blocks sees it. */
  ghost function Seen(f: Shared): Plain
    requires Held(f.cfg.blocks)
  {
    Reblock(f, BlocksOf(f.cfg.blocks))
  }

  // --------------------------------------------------------------------- writing

  function InOrder<B>(functions: map<Addr, Function<B>>): (r: seq<Function<B>>)
    ensures |r| == |functions|
  {
    var keys := Sorted(functions.Keys);
    seq(|keys|, k requires 0 <= k < |keys| => functions[keys[k]])
  }

  /** What is written for an analysis: everything in address order. */
  function Listed(a: Analysis<seq<Block>>): Listing {
    Listing(InOrder(a.functions), Sorted(a.noreturn), a.rounds)
  }

  method Values(b: Blocks) returns (r: seq<Block>)
    requires Held(b)
    ensures r == BlocksOf(b)
  {
    r := [];
    for k := 0 to |b.ids|
      invariant r == BlocksOf(b)[..k]
    {
      FindIsIndex(b.table.chunks, b.table.starts, b.ids[k]);
      var e := b.table.Get(b.ids[k]);
      TakeOneMore(BlocksOf(b), k);
      r := r + [e.value.block];
    }
  }

  ghost function SeenAll(fs: map<Addr, Shared>): (r: map<Addr, Plain>)
    requires forall a :: a in fs ==> Held(fs[a].cfg.blocks)
    ensures r.Keys == fs.Keys && forall a :: a in fs ==> r[a] == Seen(fs[a])
  {
    map a | a in fs :: Seen(fs[a])
  }

  ghost function SeenList(fs: seq<Shared>): (r: seq<Plain>)
    requires forall k :: 0 <= k < |fs| ==> Held(fs[k].cfg.blocks)
    ensures |r| == |fs| && forall k :: 0 <= k < |fs| ==> r[k] == Seen(fs[k])
  {
    seq(|fs|, k requires 0 <= k < |fs| => Seen(fs[k]))
  }

  method EncodeAll(e: Enc, fs: seq<Shared>)
    requires forall k :: 0 <= k < |fs| ==> Held(fs[k].cfg.blocks)
    modifies e
    ensures e.buf == AddFunctions(old(e.buf), SeenList(fs))
  {
    ghost var seen := SeenList(fs);
    for k := 0 to |fs|
      invariant e.buf == AddFunctions(old(e.buf), seen[..k])
    {
      AddManyStep(AddFunction, old(e.buf), seen, k);
      var blocks := Values(fs[k].cfg.blocks);
      EncodeFunction(e, Reblock(fs[k], blocks));
    }
    assert seen[..|fs|] == seen;
  }

  lemma SeenInOrder(functions: map<Addr, Shared>)
    requires forall a :: a in functions ==> Held(functions[a].cfg.blocks)
    ensures forall k :: 0 <= k < |InOrder(functions)| ==> Held(InOrder(functions)[k].cfg.blocks)
    ensures SeenList(InOrder(functions)) == InOrder(SeenAll(functions))
  {
    var keys := Sorted(functions.Keys);
    forall k | 0 <= k < |keys|
      ensures InOrder(functions)[k] == functions[keys[k]] && Held(functions[keys[k]].cfg.blocks)
    {
      assert keys[k] in functions;
    }
  }

  method EncodeFunctions(a: Analysis<Blocks>) returns (bytes: Bytes)
    requires forall f :: f in a.functions ==> Held(a.functions[f].cfg.blocks)
    ensures bytes == ListingBytes(Listed(Analysis(SeenAll(a.functions), a.noreturn, a.rounds)))
  {
    var e := new Enc();
    var functions := InOrder(a.functions);
    SeenInOrder(a.functions);
    e.U64(a.rounds);
    e.U64(|functions|);
    EncodeAll(e, functions);
    var list := Sorted(a.noreturn);
    e.U64(|list|);
    e.Addrs(list);
    return e.buf;
  }

  // --------------------------------------------------------------------- reading

  /** Functions keyed by entry; a later one replaces an earlier one. */
  function Gather(fs: seq<Plain>): map<Addr, Plain> {
    if fs == [] then map[] else Gather(fs[..|fs| - 1])[fs[|fs| - 1].entry := fs[|fs| - 1]]
  }

  function Keyed(blocks: seq<Block>): (r: seq<Entry>)
    ensures |r| == |blocks| && forall k :: 0 <= k < |r| ==> r[k] == Entry(blocks[k].range.start, blocks[k])
  {
    seq(|blocks|, k requires 0 <= k < |blocks| => Entry(blocks[k].range.start, blocks[k]))
  }

  /** A function installed from a decoded one: its ids name the decoded blocks. */
  ghost predicate Stands(entries: seq<Entry>, f: Shared, p: Plain) {
    Reblock(f, p.cfg.blocks) == p && Names(entries, f.cfg.blocks.ids, Keyed(p.cfg.blocks))
  }

  ghost predicate Pending(entries: seq<Entry>, functions: map<Addr, Shared>, read: seq<Plain>) {
    functions.Keys == Gather(read).Keys &&
    forall a :: a in functions ==> Stands(entries, functions[a], Gather(read)[a])
  }

  lemma PendingStep(was: seq<Entry>, now: seq<Entry>, functions: map<Addr, Shared>, read: seq<Plain>, f: Shared, p: Plain)
    requires Pending(was, functions, read) && was <= now && Stands(now, f, p)
    ensures Pending(now, functions[p.entry := f], read + [p])
  {
    assert (read + [p])[..|read|] == read;
    forall a | a in functions ensures Stands(now, functions[a], Gather(read)[a]) {
      assert Stands(was, functions[a], Gather(read)[a]);
    }
  }

  /** A function that was read took 26 bytes or more for each of its blocks. */
  lemma BlocksPaid(b: Bytes, at: nat)
    requires at <= |b| && ReadFunction(b, at).Some?
    ensures var p := ReadFunction(b, at).value; at + 26 * |p.0.cfg.blocks| <= p.1 <= |b|
  {
    var p := ReadFunction(b, at).value;
    FunctionTook(b, at);
    FunctionAppends(b[..at], p.0);
    SumAtLeast(BlockSize, p.0.cfg.blocks, 26);
  }

  /** Every id of the file can be told from the empty mark. */
  predicate IdsFit(bytes: Bytes) {
    |bytes| < 26 * (NO_ID - 1)
  }

  /** What has been read so far, and the functions installed for it. */
  ghost predicate Loaded(entries: seq<Entry>, functions: map<Addr, Shared>, read: seq<Plain>, at: nat, r: Read<seq<Plain>>) {
    match r
    case None => false
    case Some(p) => p == (read, at) && 26 * |entries| <= at && Pending(entries, functions, read)
  }

  lemma LoadedStep(was: seq<Entry>, now: seq<Entry>, functions: map<Addr, Shared>, read: seq<Plain>, b: Bytes, start: nat,
                   k: nat, at: nat, f: Shared, p: Plain, end: nat)
    requires Loaded(was, functions, read, at, ReadMany(ReadFunction, b, start, k)) && at <= |b|
    requires ReadFunction(b, at) == Some((p, end)) && was <= now && |now| <= |was| + |p.cfg.blocks| && Stands(now, f, p)
    ensures Loaded(now, functions[p.entry := f], read + [p], end, ReadMany(ReadFunction, b, start, k + 1))
  {
    PendingStep(was, now, functions, read, f, p);
    BlocksPaid(b, at);
  }

  method InstallAll(d: Dec, interner: BlockInterner, n: nat)
    returns (ok: bool, functions: map<Addr, Shared>, ghost read: seq<Plain>)
    requires d.Valid() && interner.Valid() && interner.Entries() == [] && IdsFit(d.buf)
    modifies d, interner
    ensures d.Valid() && interner.Valid()
    ensures ok == ReadMany(ReadFunction, d.buf, old(d.at), n).Some?
    ensures ok ==> Loaded(interner.Entries(), functions, read, d.at, ReadMany(ReadFunction, d.buf, old(d.at), n))
  {
    ok, functions, read := true, map[], [];
    for k := 0 to n
      invariant d.Valid() && interner.Valid()
      invariant Loaded(interner.Entries(), functions, read, d.at, ReadMany(ReadFunction, d.buf, old(d.at), k))
    {
      ghost var was, at := interner.Entries(), d.at;
      var p := DecodeFunction(d);
      if p.None? {
        ManyFails(ReadFunction, d.buf, old(d.at), k + 1, n);
        return false, map[], [];
      }
      BlocksPaid(d.buf, at);
      var f := Install(interner, p.value);
      LoadedStep(was, interner.Entries(), functions, read, d.buf, old(d.at), k, at, f, p.value, d.at);
      functions := functions[p.value.entry := f];
      read := read + [p.value];
    }
  }

  /** Put one decoded graph's blocks in the shared table. */
  method Install(interner: BlockInterner, p: Plain) returns (f: Shared)
    requires interner.Valid() && |interner.Entries()| + |p.cfg.blocks| + 1 < NO_ID
    modifies interner
    ensures interner.Valid() && old(interner.Entries()) <= interner.Entries()
    ensures |interner.Entries()| <= old(|interner.Entries()|) + |p.cfg.blocks|
    ensures Stands(interner.Entries(), f, p)
  {
    var ids := interner.Install(Keyed(p.cfg.blocks));
    f := Reblock(p, Blocks(BlockTable([], []), ids));
  }

  /** The function a reader gets: it sees the decoded blocks, keyed by start. */
  ghost predicate Restored(f: Shared, p: Plain) {
    Held(f.cfg.blocks) && Seen(f) == p &&
    forall k :: 0 <= k < |f.cfg.blocks.ids| ==> f.cfg.blocks.At(k).at == p.cfg.blocks[k].range.start
  }

  lemma StandsRestored(entries: seq<Entry>, f: Shared, p: Plain, b: Blocks)
    requires Stands(entries, f, p) && b.ids == f.cfg.blocks.ids && b.Listed(entries)
    ensures Restored(Reblock(f, b), p)
  {
    var g := Reblock(f, b);
    forall k | 0 <= k < |b.ids| ensures g.cfg.blocks.At(k) == Keyed(p.cfg.blocks)[k] {
    }
    assert BlocksOf(g.cfg.blocks) == p.cfg.blocks;
  }

  ghost predicate AllRestored(functions: map<Addr, Shared>, read: seq<Plain>) {
    functions.Keys == Gather(read).Keys && forall a :: a in functions ==> Restored(functions[a], Gather(read)[a])
  }

  lemma IdsKnown(entries: seq<Entry>, functions: map<Addr, Shared>, read: seq<Plain>)
    requires Pending(entries, functions, read)
    ensures forall a :: a in functions ==>
      forall k :: 0 <= k < |functions[a].cfg.blocks.ids| ==> functions[a].cfg.blocks.ids[k] < |entries|
  {
    forall a | a in functions
      ensures forall k :: 0 <= k < |functions[a].cfg.blocks.ids| ==> functions[a].cfg.blocks.ids[k] < |entries|
    {
      assert Stands(entries, functions[a], Gather(read)[a]);
    }
  }

  /** Each list holds the ids of the function at its key. */
  ghost predicate Matched(given: seq<Blocks>, functions: map<Addr, Shared>, keys: seq<Addr>) {
    |given| == |keys| &&
    forall j :: 0 <= j < |keys| ==> keys[j] in functions && given[j].ids == functions[keys[j]].cfg.blocks.ids
  }

  ghost predicate Known(entries: seq<Entry>, given: seq<Blocks>) {
    forall c :: c in given ==> forall k :: 0 <= k < |c.ids| ==> c.ids[k] < |entries|
  }

  /** The block lists still waiting for their table. */
  method Unpublished(functions: map<Addr, Shared>, keys: seq<Addr>, ghost entries: seq<Entry>, ghost read: seq<Plain>)
    returns (given: seq<Blocks>)
    requires Pending(entries, functions, read) && forall a :: a in keys ==> a in functions
    ensures Matched(given, functions, keys) && Known(entries, given)
  {
    IdsKnown(entries, functions, read);
    given := [];
    for i := 0 to |keys|
      invariant Matched(given, functions, keys[..i]) && Known(entries, given)
    {
      given := given + [functions[keys[i]].cfg.blocks];
    }
    assert keys[..|keys|] == keys;
  }

  lemma StillMatched(given: seq<Blocks>, out: seq<Blocks>, functions: map<Addr, Shared>, keys: seq<Addr>)
    requires Matched(given, functions, keys) && |out| == |given| && forall c :: 0 <= c < |out| ==> out[c].ids == given[c].ids
    ensures Matched(out, functions, keys)
  {
  }

  /** The functions done so far see what was read. */
  ghost predicate Done(done: map<Addr, Shared>, keys: seq<Addr>, read: seq<Plain>) {
    done.Keys == Elems(keys) && forall a :: a in done ==> a in Gather(read) && Restored(done[a], Gather(read)[a])
  }

  lemma DoneStep(done: map<Addr, Shared>, keys: seq<Addr>, i: nat, read: seq<Plain>, entries: seq<Entry>,
                 functions: map<Addr, Shared>, b: Blocks)
    requires i < |keys| && Done(done, keys[..i], read) && Pending(entries, functions, read) && keys[i] in functions
    requires b.ids == functions[keys[i]].cfg.blocks.ids && b.Listed(entries)
    ensures Done(done[keys[i] := Reblock(functions[keys[i]], b)], keys[..i + 1], read)
  {
    var a := keys[i];
    StandsRestored(entries, functions[a], Gather(read)[a], b);
    TakeOneMore(keys, i);
  }

  lemma DoneAll(done: map<Addr, Shared>, functions: map<Addr, Shared>, read: seq<Plain>)
    requires Done(done, Sorted(functions.Keys), read) && functions.Keys == Gather(read).Keys
    ensures AllRestored(done, read)
  {
    assert Elems(Sorted(functions.Keys)) == functions.Keys;
  }

  method Reattach(functions: map<Addr, Shared>, keys: seq<Addr>, out: seq<Blocks>, ghost entries: seq<Entry>,
                  ghost read: seq<Plain>)
    returns (done: map<Addr, Shared>)
    requires Pending(entries, functions, read) && Matched(out, functions, keys)
    requires forall i :: 0 <= i < |out| ==> out[i].Listed(entries)
    ensures Done(done, keys, read)
  {
    done := map[];
    for i := 0 to |keys|
      invariant Done(done, keys[..i], read)
    {
      DoneStep(done, keys, i, read, entries, functions, out[i]);
      done := done[keys[i] := Reblock(functions[keys[i]], out[i])];
    }
    assert keys[..|keys|] == keys;
  }

  /** Publish the table to every function that was installed. */
  method PublishAll(interner: BlockInterner, functions: map<Addr, Shared>, ghost read: seq<Plain>)
    returns (done: map<Addr, Shared>)
    requires interner.Valid() && Pending(interner.Entries(), functions, read)
    modifies interner
    ensures AllRestored(done, read)
  {
    ghost var entries := interner.Entries();
    var keys: seq<Addr> := Sorted(functions.Keys);
    var given := Unpublished(functions, keys, entries, read);
    var out := interner.Publish(given);
    StillMatched(given, out, functions, keys);
    done := Reattach(functions, keys, out, entries, read);
    DoneAll(done, functions, read);
  }

  method DecodeFoot(d: Dec) returns (r: Option<seq<Addr>>)
    requires d.Valid()
    modifies d
    ensures r == ReadFoot(d.buf, old(d.at))
  {
    var m :- d.Count(8);
    var noreturn :- d.Addrs(m);
    return if d.Remaining() != 0 then None else Some(noreturn);
  }

  /** A reader sees the listing that was read. */
  ghost predicate Answers(r: Option<Analysis<Blocks>>, l: Option<Listing>) {
    match l
    case None => r == None
    case Some(l) =>
      (r.Some? && AllRestored(r.value.functions, l.functions) &&
       r.value.noreturn == Elems(l.noreturn) && r.value.rounds == l.rounds)
  }

  /** Read an entry back into one table for the program: nothing on any damage,
      and otherwise functions a reader sees exactly as they were read. */
  method DecodeFunctions(bytes: Bytes, hash: Entry -> nat) returns (r: Option<Analysis<Blocks>>)
    requires IdsFit(bytes)
    ensures Answers(r, ReadListing(bytes))
  {
    var d := new Dec(bytes);
    var rounds :- d.U64();
    var n :- d.Count(MIN_FUNCTION);
    var interner := new BlockInterner(hash);
    var ok, functions, read := InstallAll(d, interner, n);
    if !ok {
      return None;
    }
    functions := PublishAll(interner, functions, read);
    var noreturn :- DecodeFoot(d);
    return Some(Analysis(functions, (set a | a in noreturn), rounds));
  }
}
