/** The program-wide block table: identical blocks are held once
    (crates/e5r-analysis/src/cfg.rs). */
module Interner {
  import opened Ordered
  import opened Image
  import opened Walk
  import opened BlockIndex

  class BlockInterner {
    /** Any deterministic function of the address and the block. */
    const hash: Entry -> nat
    var chunks: seq<seq<Entry>>
    var starts: seq<BlockId>
    /** Entries interned since the last seal. */
    var open: seq<Entry>
    /** The first id in `open`. */
    var sealed: BlockId
    var slots: seq<BlockId>
    var filled: nat
    /** Every snapshot handed out so far. */
    ghost var published: seq<BlockTable>

    /** Everything interned, by id. */
    ghost function Entries(): seq<Entry>
      reads this
    {
      Flatten(chunks) + open
    }

    ghost predicate Valid()
      reads this
    {
      StateOk(hash, Now())
    }

    ghost function Now(): State
      reads this
    {
      State(chunks, starts, open, sealed, slots, filled, published)
    }

    constructor (hash: Entry -> nat)
      ensures Valid() && Entries() == [] && published == [] && this.hash == hash
    {
      this.hash := hash;
      chunks, starts, open, sealed := [], [], [], 0;
      slots := seq(1024, i => NO_ID);
      filled := 0;
      published := [];
      new;
      PowerDoubles(1); PowerDoubles(2); PowerDoubles(4); PowerDoubles(8); PowerDoubles(16);
      PowerDoubles(32); PowerDoubles(64); PowerDoubles(128); PowerDoubles(256); PowerDoubles(512);
    }

    /** The entry an id names, sealed or not. */
    method Lookup(id: BlockId) returns (e: Option<Entry>)
      requires Chunked(chunks, starts) && sealed == |Flatten(chunks)|
      ensures e == if id < |Entries()| then Some(Entries()[id]) else None
    {
      if id >= sealed {
        return if id - sealed < |open| then Some(open[id - sealed]) else None;
      }
      FindIsIndex(chunks, starts, id);
      return Find(chunks, starts, id);
    }

    /** Probe from an entry's home slot to the slot holding its id, or to the
        empty slot where it belongs. */
    method Probe(e: Entry) returns (i: nat, found: Option<BlockId>)
      requires Valid()
      ensures i < |slots|
      ensures found.Some? ==> found.value < |Entries()| && Entries()[found.value] == e
      ensures found.None? ==> e !in Entries() && slots[i] == NO_ID && TakenUpTo(slots, hash(e) % |slots|, i)
    {
      ghost var homes, ids := Homes(hash, Entries()), Below(|Entries()|);
      ghost var empty := EmptySlot(slots, homes, ids);
      var home := hash(e) % |slots|;
      i := home;
      while slots[i] != NO_ID
        invariant i < |slots|
        invariant Gap(home, i, |slots|) <= Gap(home, empty, |slots|)
        invariant TakenUpTo(slots, home, i)
        invariant Misses(slots, Entries(), e, home, i)
        decreases Gap(home, empty, |slots|) - Gap(home, i, |slots|)
      {
        var entry := Lookup(slots[i]);
        if entry == Some(e) {
          return i, Some(slots[i]);
        }
        ProbeStep(slots, home, i, empty);
        MissesStep(slots, Entries(), e, home, i, empty);
        i := NextSlot(i, |slots|);
      }
      found := None;
      if e in Entries() {
        ghost var id :| 0 <= id < |Entries()| && Entries()[id] == e;
        NotIndexed(slots, homes, ids, Entries(), id, i);
        assert false;
      }
    }

    /** The id of a block: its own if it is already held, the next one if not. */
    method Intern(at: Addr, block: Block) returns (id: BlockId)
      requires Valid() && |Entries()| + 1 < NO_ID
      modifies this
      ensures Valid() && published == old(published) && chunks == old(chunks)
      ensures Entries() == if Entry(at, block) in old(Entries()) then old(Entries()) else old(Entries()) + [Entry(at, block)]
      ensures id < |Entries()| && Entries()[id] == Entry(at, block)
    {
      if (filled + 1) * 4 >= |slots| * 3 {
        Grow();
      }
      var e := Entry(at, block);
      var i, found := Probe(e);
      if found.Some? {
        return found.value;
      }
      id := sealed + |open|;
      Place(e, i);
    }

    /** Append an entry and put its id in the slot its probe ended at. */
    method Place(e: Entry, i: nat)
      requires Valid() && e !in Entries() && filled + 1 < NO_ID && (filled + 1) * 4 < |slots| * 3
      requires i < |slots| && slots[i] == NO_ID && TakenUpTo(slots, hash(e) % |slots|, i)
      modifies this`open, this`slots, this`filled
      ensures Valid() && Entries() == old(Entries()) + [e]
    {
      ghost var was := Now();
      slots := slots[i := sealed + |open|];
      open := open + [e];
      filled := filled + 1;
      ghost var next := Now();
      AppendOk(hash, was, next, e, i);
    }

    /** Put one id into a larger index, where a probe for its entry will find it. */
    method Reinsert(bigger: seq<BlockId>, id: BlockId, ghost ids: set<BlockId>) returns (more: seq<BlockId>)
      requires Valid() && id < |Entries()| && id !in ids && id != NO_ID && |ids| < |bigger|
      requires Indexed(Index(bigger, Homes(hash, Entries()), ids))
      ensures |more| == |bigger| && Indexed(Index(more, Homes(hash, Entries()), ids + {id}))
    {
      ghost var homes := Homes(hash, Entries());
      var e := Lookup(id);
      ghost var empty := EmptySlot(bigger, homes, ids);
      var i := FreeSlot(bigger, hash(e.value) % |bigger|, empty);
      IndexInsert(bigger, homes, ids, i, id);
      more := bigger[i := id];
    }

    /** Double the index and put every id back where a probe will find it. */
    method Grow()
      requires Valid()
      modifies this`slots
      ensures Valid() && |slots| == 2 * old(|slots|)
    {
      ghost var entries := Entries();
      ghost var homes, all := Homes(hash, entries), Below(|entries|);
      var taken: seq<BlockId> := slots;
      var bigger: seq<BlockId> := seq(|taken| * 2, i => NO_ID);
      for k := 0 to |taken|
        invariant slots == taken && |bigger| == 2 * |taken|
        invariant Indexed(Index(bigger, homes, IdsIn(taken[..k])))
      {
        IdsInStep(taken, homes, all, k);
        if taken[k] != NO_ID {
          bigger := Reinsert(bigger, taken[k], IdsIn(taken[..k]));
        }
      }
      IdsInAll(taken, homes, all);
      ghost var was := Now();
      slots := bigger;
      RegrownOk(hash, was, Now());
    }

    /** Intern one walked function's blocks; the ids come back in block order. */
    method Install(raw: seq<Entry>) returns (ids: seq<BlockId>)
      requires Valid() && |Entries()| + |raw| + 1 < NO_ID
      modifies this
      ensures Valid() && published == old(published)
      ensures old(Entries()) <= Entries() && |Entries()| <= old(|Entries()|) + |raw|
      ensures Names(Entries(), ids, raw)
    {
      ids := [];
      for k := 0 to |raw|
        invariant Valid() && published == old(published)
        invariant old(Entries()) <= Entries() && |Entries()| <= old(|Entries()|) + k
        invariant Names(Entries(), ids, raw[..k])
      {
        ghost var was := Entries();
        var id := Intern(raw[k].at, raw[k].block);
        NamesGrow(was, Entries(), ids, raw, k, id);
        ids := ids + [id];
      }
      assert raw[..|raw|] == raw;
    }

    /** Turn what is open into a chunk of its own. */
    method Close()
      requires Valid()
      modifies this
      ensures Valid() && open == [] && Entries() == old(Entries()) && published == old(published)
    {
      if open != [] {
        ghost var was := Now();
        starts := starts + [sealed];
        sealed := sealed + |open|;
        chunks := chunks + [open];
        open := [];
        SealOk(hash, was, Now());
      }
    }

    /** Seal what has been interned and hand out a snapshot of everything. */
    method Seal() returns (table: BlockTable)
      requires Valid()
      modifies this
      ensures Valid() && Entries() == old(Entries()) && published == old(published) + [table]
      ensures table.Valid() && table.Entries() == Entries()
    {
      Close();
      table := BlockTable(chunks, starts);
      assert Flatten(chunks) + [] == Flatten(chunks);
      PublishOk(hash, Now(), table);
      published := published + [table];
    }

    /** Give every function of a batch the table its ids are in. */
    method Publish(cfgs: seq<Blocks>) returns (out: seq<Blocks>)
      requires Valid()
      requires forall c :: c in cfgs ==> forall k :: 0 <= k < |c.ids| ==> c.ids[k] < |Entries()|
      modifies this
      ensures Valid() && Entries() == old(Entries())
      ensures |out| == |cfgs|
      ensures forall c :: 0 <= c < |out| ==> out[c].ids == cfgs[c].ids && out[c].Listed(old(Entries()))
    {
      var table := Seal();
      out := Stamp(table, cfgs);
      assert forall c :: 0 <= c < |out| ==> cfgs[c] in cfgs;
    }
  }

  /** Point every function of a batch at one table. */
  method Stamp(table: BlockTable, cfgs: seq<Blocks>) returns (out: seq<Blocks>)
    ensures |out| == |cfgs| && forall c :: 0 <= c < |out| ==> out[c] == Blocks(table, cfgs[c].ids)
  {
    out := [];
    for c := 0 to |cfgs|
      invariant |out| == c
      invariant forall j :: 0 <= j < c ==> out[j] == Blocks(table, cfgs[j].ids)
    {
      out := out + [Blocks(table, cfgs[c].ids)];
    }
  }

  /** Each id names the entry asked for. */
  ghost predicate Names(entries: seq<Entry>, ids: seq<BlockId>, raw: seq<Entry>) {
    |ids| == |raw| && forall k :: 0 <= k < |raw| ==> ids[k] < |entries| && entries[ids[k]] == raw[k]
  }

  lemma NamesGrow(was: seq<Entry>, now: seq<Entry>, ids: seq<BlockId>, raw: seq<Entry>, k: nat, id: BlockId)
    requires k < |raw| && Names(was, ids, raw[..k]) && was <= now && id < |now| && now[id] == raw[k]
    ensures Names(now, ids + [id], raw[..k + 1])
  {
  }

  /** Two interned blocks have the same id exactly when address and block agree. */
  lemma SameIdIffSame(hash: Entry -> nat, s: State, i: BlockId, j: BlockId)
    requires StateOk(hash, s)
    requires i < |Flatten(s.chunks) + s.open| && j < |Flatten(s.chunks) + s.open|
    ensures i == j <==> (Flatten(s.chunks) + s.open)[i] == (Flatten(s.chunks) + s.open)[j]
  {
  }

  /** Every snapshot ever handed out answers, for each id it holds, the entry
      that id has in the table now; ids past its end it does not know. */
  lemma SnapshotsAgree(hash: Entry -> nat, s: State, t: BlockTable, id: BlockId)
    requires StateOk(hash, s) && t in s.published
    ensures t.Valid()
    ensures t.Get(id) == if id < |t.Entries()| then Some((Flatten(s.chunks) + s.open)[id]) else None
  {
    FindIsIndex(t.chunks, t.starts, id);
  }

  /** The blocks of one function: ids in address order, and their table. */
  datatype Blocks = Blocks(table: BlockTable, ids: seq<BlockId>) {
    /** The table is a good one and every id is in it. */
    ghost predicate Listed(entries: seq<Entry>) {
      table.Valid() && table.Entries() == entries && forall k :: 0 <= k < |ids| ==> ids[k] < |entries|
    }

    /** The k-th block's entry. */
    ghost function At(k: nat): Entry
      requires table.Valid() && k < |ids| && ids[k] < |table.Entries()|
    {
      table.Entries()[ids[k]]
    }

    ghost predicate Ordered() {
      Listed(table.Entries()) && forall i, j :: 0 <= i < j < |ids| ==> At(i).at < At(j).at
    }

    /** Find a block by its start address, by binary search over the ids. */
    function Get(at: Addr): Option<Block> {
      var n := PartitionPoint(ids, id => table.Get(id).Some? && table.Get(id).value.at < at);
      if n == |ids| then None else
      match table.Get(ids[n])
      case None => None
      case Some(e) => if e.at == at then Some(e.block) else None
    }
  }

  /** Looking a block up by address is looking it up in the map from start
      address to block that the ids stand for. */
  lemma GetIsMapLookup(b: Blocks, at: Addr)
    requires b.Ordered()
    ensures b.Get(at).None? <==> forall k :: 0 <= k < |b.ids| ==> b.At(k).at != at
    ensures forall k :: 0 <= k < |b.ids| && b.At(k).at == at ==> b.Get(at) == Some(b.At(k).block)
  {
    forall k | 0 <= k < |b.ids| ensures b.table.Get(b.ids[k]) == Some(b.At(k)) {
      FindIsIndex(b.table.chunks, b.table.starts, b.ids[k]);
    }
  }
}
