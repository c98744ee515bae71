/** The parts of the block table: chunks of entries found by id, and the
    open-addressing index over them (crates/e5r-analysis/src/cfg.rs). */
module BlockIndex {
  import opened Ordered
  import opened Image
  import opened Walk

  /** A block and the address it is keyed by. */
  datatype Entry = Entry(at: Addr, block: Block)

  type BlockId = nat

  /** The largest 32-bit number marks an empty slot. */
  const NO_ID: BlockId := 0xffff_ffff

  // ------------------------------------------------------------- the table

  ghost function Flatten(chunks: seq<seq<Entry>>): seq<Entry> {
    if chunks == [] then [] else Flatten(chunks[..|chunks| - 1]) + chunks[|chunks| - 1]
  }

  /** Each chunk is non-empty and starts where the one before it ends. */
  ghost predicate Chunked(chunks: seq<seq<Entry>>, starts: seq<BlockId>) {
    |starts| == |chunks| &&
    forall c :: 0 <= c < |chunks| ==>
      chunks[c] != [] && (c == 0 ==> starts[c] == 0) && (c > 0 ==> starts[c] == starts[c - 1] + |chunks[c - 1]|)
  }

  /** Find the chunk by its first id, then the entry inside it. */
  function Find(chunks: seq<seq<Entry>>, starts: seq<BlockId>, id: BlockId): Option<Entry>
  {
    var n := PartitionPoint(starts, s => s <= id);
    if n == 0 || n > |chunks| then None else
    var chunk, off := chunks[n - 1], id - starts[n - 1];
    if 0 <= off < |chunk| then Some(chunk[off]) else None
  }

  lemma {:induction false} FlattenPrefix(chunks: seq<seq<Entry>>, c: nat)
    requires c <= |chunks|
    ensures Flatten(chunks[..c]) <= Flatten(chunks)
    ensures c < |chunks| ==> Flatten(chunks[..c + 1]) == Flatten(chunks[..c]) + chunks[c]
  {
    if c < |chunks| {
      assert chunks[..c + 1][..c] == chunks[..c];
      var less := chunks[..|chunks| - 1];
      FlattenPrefix(less, c);
      assert less[..c] == chunks[..c];
    } else {
      assert chunks[..c] == chunks;
    }
  }

  /** A chunk's first id is how many entries come before it. */
  lemma {:induction false} StartIsCount(chunks: seq<seq<Entry>>, starts: seq<BlockId>, c: nat)
    requires Chunked(chunks, starts) && c < |chunks|
    ensures starts[c] == |Flatten(chunks[..c])|
  {
    if c > 0 {
      StartIsCount(chunks, starts, c - 1);
      FlattenPrefix(chunks, c - 1);
    }
  }

  /** Where a chunk's entries lie in the whole list. */
  lemma ChunkLies(chunks: seq<seq<Entry>>, starts: seq<BlockId>, c: nat)
    requires Chunked(chunks, starts) && c < |chunks|
    ensures starts[c] + |chunks[c]| <= |Flatten(chunks)|
    ensures Flatten(chunks)[starts[c]..starts[c] + |chunks[c]|] == chunks[c]
    ensures c == |chunks| - 1 ==> starts[c] + |chunks[c]| == |Flatten(chunks)|
  {
    StartIsCount(chunks, starts, c);
    FlattenPrefix(chunks, c);
    FlattenPrefix(chunks, c + 1);
    if c == |chunks| - 1 {
      assert chunks[..c + 1] == chunks;
    }
  }

  /** The search for the chunk stops past the one whose stretch of ids holds this one. */
  lemma SearchStops(chunks: seq<seq<Entry>>, starts: seq<BlockId>, id: BlockId)
    requires Chunked(chunks, starts) && chunks != []
    ensures var n := PartitionPoint(starts, s => s <= id);
      0 < n <= |chunks| && starts[n - 1] <= id && (n < |chunks| ==> id < starts[n - 1] + |chunks[n - 1]|)
  {
    assert chunks[0] != [] && starts[0] == 0;
  }

  /** Looking an id up answers the entry at that position of the whole list. */
  lemma FindIsIndex(chunks: seq<seq<Entry>>, starts: seq<BlockId>, id: BlockId)
    requires Chunked(chunks, starts)
    ensures Find(chunks, starts, id) ==
            if id < |Flatten(chunks)| then Some(Flatten(chunks)[id]) else None
  {
    if chunks != [] {
      SearchStops(chunks, starts, id);
      var n := PartitionPoint(starts, s => s <= id);
      ChunkLies(chunks, starts, n - 1);
      var all, off := Flatten(chunks), id - starts[n - 1];
      if off < |chunks[n - 1]| {
        assert all[starts[n - 1]..starts[n - 1] + |chunks[n - 1]|][off] == all[id];
      }
    }
  }

  /** A published snapshot: the chunks that existed when it was taken. */
  datatype BlockTable = BlockTable(chunks: seq<seq<Entry>>, starts: seq<BlockId>) {
    ghost predicate Valid() {
      Chunked(chunks, starts)
    }

    ghost function Entries(): seq<Entry> {
      Flatten(chunks)
    }

    function Get(id: BlockId): Option<Entry> {
      Find(chunks, starts, id)
    }
  }

  // ------------------------------------------------------------- the index

  /** Steps forward, around the end, from one slot to another. */
  ghost function Gap(from: nat, to: nat, n: nat): nat
    requires from < n && to < n
  {
    if from <= to then to - from else to + n - from
  }

  ghost function Ahead(from: nat, d: nat, n: nat): nat
    requires from < n && d < n
  {
    if from + d < n then from + d else from + d - n
  }

  /** The next slot. With a power-of-two size this is `(i + 1) & (n - 1)`. */
  function NextSlot(i: nat, n: nat): (r: nat)
    requires i < n
    ensures r < n
  {
    if i + 1 == n then 0 else i + 1
  }

  /** Moving on from a taken slot stays short of any empty slot ahead. */
  lemma ProbeStep(slots: seq<BlockId>, home: nat, i: nat, empty: nat)
    requires home < |slots| && i < |slots| && empty < |slots| && slots[i] != NO_ID && slots[empty] == NO_ID
    requires Gap(home, i, |slots|) <= Gap(home, empty, |slots|)
    ensures Gap(home, NextSlot(i, |slots|), |slots|) == Gap(home, i, |slots|) + 1 <= Gap(home, empty, |slots|)
    ensures Ahead(home, Gap(home, i, |slots|), |slots|) == i
  {
  }

  /** Every slot from `home` up to but not including `i` is taken. */
  ghost predicate TakenUpTo(slots: seq<BlockId>, home: nat, i: nat)
    requires home < |slots| && i < |slots|
  {
    forall d :: 0 <= d < Gap(home, i, |slots|) ==> slots[Ahead(home, d, |slots|)] != NO_ID
  }

  /** Slots, the home of each id, and the ids that are in the slots. */
  datatype Index = Index(slots: seq<BlockId>, home: seq<nat>, ids: set<BlockId>)

  /** Each id is in exactly one slot, and no empty slot lies between its home
      and there, which is what lets a probe stop at the first empty slot. */
  ghost predicate Indexed(x: Index) {
    match x
    case Index(slots, home, ids) =>
      |slots| > 0 &&
      (forall id :: id in ids ==> id < |home| && id != NO_ID) &&
      (forall id :: id in ids ==> id in slots) &&
      (forall i :: 0 <= i < |slots| && slots[i] != NO_ID ==> slots[i] in ids) &&
      (forall i, j :: 0 <= i < j < |slots| && slots[i] != NO_ID ==> slots[i] != slots[j]) &&
      (forall i :: 0 <= i < |slots| && slots[i] != NO_ID ==> TakenUpTo(slots, home[slots[i]] % |slots|, i))
  }

  /** Fewer ids than slots leaves one empty, so every probe ends. */
  lemma EmptySlot(slots: seq<BlockId>, home: seq<nat>, ids: set<BlockId>) returns (e: nat)
    requires Indexed(Index(slots, home, ids)) && |ids| < |slots|
    ensures e < |slots| && slots[e] == NO_ID
  {
    if forall i :: 0 <= i < |slots| ==> slots[i] != NO_ID {
      DistinctFits(slots, ids);
      assert false;
    }
    e :| 0 <= e < |slots| && slots[e] == NO_ID;
  }

  /** Filling the empty slot a probe ended at keeps the index right. */
  lemma IndexInsert(slots: seq<BlockId>, home: seq<nat>, ids: set<BlockId>, i: nat, id: BlockId)
    requires Indexed(Index(slots, home, ids)) && id !in ids && id < |home| && id != NO_ID
    requires i < |slots| && slots[i] == NO_ID && TakenUpTo(slots, home[id] % |slots|, i)
    ensures Indexed(Index(slots[i := id], home, ids + {id}))
  {
    var slots' := slots[i := id];
    forall x | x in ids + {id} ensures x in slots' {
      if x == id {
        assert slots'[i] == x;
      } else {
        var k :| 0 <= k < |slots| && slots[k] == x;
        assert slots'[k] == x;
      }
    }
    forall k | 0 <= k < |slots'| && slots'[k] != NO_ID ensures TakenUpTo(slots', home[slots'[k]] % |slots'|, k) {
      assert TakenUpTo(slots, home[slots'[k]] % |slots|, k);
    }
  }

  /** Every slot a probe has passed is taken by some other entry. */
  ghost predicate Misses(slots: seq<BlockId>, entries: seq<Entry>, e: Entry, home: nat, i: nat)
    requires home < |slots| && i < |slots|
  {
    forall d :: 0 <= d < Gap(home, i, |slots|) ==> Other(entries, slots[Ahead(home, d, |slots|)], e)
  }

  ghost predicate Other(entries: seq<Entry>, id: BlockId, e: Entry) {
    id < |entries| && entries[id] != e
  }

  lemma MissesStep(slots: seq<BlockId>, entries: seq<Entry>, e: Entry, home: nat, i: nat, empty: nat)
    requires home < |slots| && i < |slots| && empty < |slots| && slots[i] != NO_ID && slots[empty] == NO_ID
    requires Gap(home, i, |slots|) <= Gap(home, empty, |slots|)
    requires Misses(slots, entries, e, home, i) && TakenUpTo(slots, home, i) && Other(entries, slots[i], e)
    ensures Misses(slots, entries, e, home, NextSlot(i, |slots|)) && TakenUpTo(slots, home, NextSlot(i, |slots|))
  {
    ProbeStep(slots, home, i, empty);
  }

  /** When a probe from `home` meets only other entries before an empty slot,
      the id is not in the index at all. */
  lemma NotIndexed(slots: seq<BlockId>, home: seq<nat>, ids: set<BlockId>, entries: seq<Entry>, id: BlockId, i: nat)
    requires Indexed(Index(slots, home, ids)) && id < |home| == |entries| && i < |slots| && slots[i] == NO_ID
    requires Misses(slots, entries, entries[id], home[id] % |slots|, i)
    ensures id !in ids
  {
    var h, n := home[id] % |slots|, |slots|;
    assert forall j :: 0 <= j < n ==> Ahead(h, Gap(h, j, n), n) == j;
    assert id in ids ==> exists j :: 0 <= j < n && slots[j] == id && TakenUpTo(slots, h, j);
  }

  // ---------------------------------------------------------- the interner

  ghost function Homes(hash: Entry -> nat, entries: seq<Entry>): seq<nat> {
    seq(|entries|, i requires 0 <= i < |entries| => hash(entries[i]))
  }

  /** Entries by id, and the slots that index them. */
  datatype Held = Held(entries: seq<Entry>, slots: seq<BlockId>)

  /** The index names every entry once, and is less than three quarters full. */
  ghost predicate IndexOk(hash: Entry -> nat, h: Held) {
    match h
    case Held(entries, slots) =>
      Distinct(entries) && |entries| < NO_ID && |entries| * 4 < |slots| * 3 && |slots| > 1 && PowerOfTwo(|slots|) &&
      Indexed(Index(slots, Homes(hash, entries), Below(|entries|)))
  }

  /** Every snapshot ever published answers for a prefix of what is held now. */
  ghost predicate Snapshots(published: seq<BlockTable>, entries: seq<Entry>) {
    forall t :: t in published ==> t.Valid() && t.Entries() <= entries
  }

  /** What an interner holds: sealed chunks, the entries interned since, the
      index over both, and every snapshot handed out. */
  datatype State = State(chunks: seq<seq<Entry>>, starts: seq<BlockId>, open: seq<Entry>, sealed: BlockId,
                         slots: seq<BlockId>, filled: nat, published: seq<BlockTable>)

  ghost predicate StateOk(hash: Entry -> nat, s: State) {
    match s
    case State(chunks, starts, open, sealed, slots, filled, published) =>
      Chunked(chunks, starts) && sealed == |Flatten(chunks)| && filled == |Flatten(chunks) + open| &&
      IndexOk(hash, Held(Flatten(chunks) + open, slots)) && Snapshots(published, Flatten(chunks) + open)
  }

  lemma SnapshotsGrow(published: seq<BlockTable>, was: seq<Entry>, now: seq<Entry>)
    requires Snapshots(published, was) && was <= now
    ensures Snapshots(published, now)
  {
  }

  /** The state with one more entry, its id in the slot its probe ended at. */
  ghost predicate Appended(s: State, next: State, e: Entry, i: nat) {
    i < |s.slots| && next.chunks == s.chunks && next.starts == s.starts && next.open == s.open + [e] &&
    next.sealed == s.sealed && next.slots == s.slots[i := s.sealed + |s.open|] && next.filled == s.filled + 1 &&
    next.published == s.published
  }

  lemma AppendOk(hash: Entry -> nat, s: State, next: State, e: Entry, i: nat)
    requires StateOk(hash, s) && e !in Flatten(s.chunks) + s.open && s.filled + 1 < NO_ID
    requires (s.filled + 1) * 4 < |s.slots| * 3 && Appended(s, next, e, i)
    requires s.slots[i] == NO_ID && TakenUpTo(s.slots, hash(e) % |s.slots|, i)
    ensures StateOk(hash, next)
    ensures Flatten(next.chunks) + next.open == (Flatten(s.chunks) + s.open) + [e]
  {
    var was := Flatten(s.chunks) + s.open;
    assert Flatten(s.chunks) + (s.open + [e]) == was + [e];
    assert s.slots[i := s.sealed + |s.open|] == s.slots[i := |was|];
    AppendIndexed(hash, was, s.slots, e, i);
    SnapshotsGrow(s.published, was, was + [e]);
  }

  /** A new chunk starts where the last one ends. */
  lemma ChunkedPush(chunks: seq<seq<Entry>>, starts: seq<BlockId>, chunk: seq<Entry>)
    requires Chunked(chunks, starts) && chunk != []
    ensures Chunked(chunks + [chunk], starts + [|Flatten(chunks)|])
    ensures Flatten(chunks + [chunk]) == Flatten(chunks) + chunk
  {
    assert (chunks + [chunk])[..|chunks|] == chunks;
    if chunks != [] {
      ChunkLies(chunks, starts, |chunks| - 1);
    }
  }

  /** The state with what was open made a chunk of its own. */
  ghost predicate Sealed(s: State, next: State) {
    next.chunks == s.chunks + [s.open] && next.starts == s.starts + [s.sealed] && next.open == [] &&
    next.sealed == s.sealed + |s.open| && next.slots == s.slots && next.filled == s.filled && next.published == s.published
  }

  lemma SealOk(hash: Entry -> nat, s: State, next: State)
    requires StateOk(hash, s) && s.open != [] && Sealed(s, next)
    ensures StateOk(hash, next)
    ensures Flatten(next.chunks) + next.open == Flatten(s.chunks) + s.open
  {
    ChunkedPush(s.chunks, s.starts, s.open);
    assert Flatten(next.chunks) + next.open == Flatten(s.chunks) + s.open;
  }

  /** The state over an index twice the size that names the same entries. */
  lemma RegrownOk(hash: Entry -> nat, s: State, next: State)
    requires StateOk(hash, s) && next == s.(slots := next.slots) && |next.slots| == 2 * |s.slots|
    requires Indexed(Index(next.slots, Homes(hash, Flatten(s.chunks) + s.open), Below(|Flatten(s.chunks) + s.open|)))
    ensures StateOk(hash, next)
  {
    IndexRegrown(hash, Flatten(s.chunks) + s.open, s.slots, next.slots);
  }

  lemma IndexRegrown(hash: Entry -> nat, entries: seq<Entry>, slots: seq<BlockId>, bigger: seq<BlockId>)
    requires IndexOk(hash, Held(entries, slots)) && |bigger| == |slots| * 2
    requires Indexed(Index(bigger, Homes(hash, entries), Below(|entries|)))
    ensures IndexOk(hash, Held(entries, bigger))
  {
    PowerDoubles(|slots|);
  }

  lemma PublishOk(hash: Entry -> nat, s: State, t: BlockTable)
    requires StateOk(hash, s) && t.Valid() && t.Entries() <= Flatten(s.chunks) + s.open
    ensures StateOk(hash, s.(published := s.published + [t]))
  {
  }

  /** The ids a stretch of slots holds. */
  ghost function IdsIn(slots: seq<BlockId>): set<BlockId> {
    set id | id in slots && id != NO_ID
  }

  lemma IdsInStep(slots: seq<BlockId>, homes: seq<nat>, all: set<BlockId>, k: nat)
    requires Indexed(Index(slots, homes, all)) && k < |slots|
    ensures IdsIn(slots[..k + 1]) == if slots[k] == NO_ID then IdsIn(slots[..k]) else IdsIn(slots[..k]) + {slots[k]}
    ensures slots[k] != NO_ID ==> slots[k] !in IdsIn(slots[..k]) && slots[k] in all
    ensures |IdsIn(slots[..k])| <= |all|
  {
    assert slots[..k + 1] == slots[..k] + [slots[k]];
    forall id | id in IdsIn(slots[..k]) ensures id in all {
      var j :| 0 <= j < k && slots[j] == id;
    }
    SubsetSmaller(IdsIn(slots[..k]), all);
  }

  lemma IdsInAll(slots: seq<BlockId>, homes: seq<nat>, all: set<BlockId>)
    requires Indexed(Index(slots, homes, all))
    ensures IdsIn(slots[..|slots|]) == all
  {
    assert slots[..|slots|] == slots;
    forall id | id in all ensures id in IdsIn(slots) {
      var j :| 0 <= j < |slots| && slots[j] == id;
    }
  }

  lemma SubsetSmaller(a: set<BlockId>, b: set<BlockId>)
    requires a <= b
    ensures |a| <= |b|
  {
    assert b == a + (b - a);
  }

  lemma PowerDoubles(n: nat)
    requires PowerOfTwo(n)
    ensures PowerOfTwo(n * 2)
  {
    assert n * 2 / 2 == n;
  }

  ghost predicate PowerOfTwo(n: nat) {
    n == 1 || (n > 1 && n % 2 == 0 && PowerOfTwo(n / 2))
  }

  /** The first empty slot at or after a home slot. */
  method FreeSlot(slots: seq<BlockId>, home: nat, ghost empty: nat) returns (i: nat)
    requires home < |slots| && empty < |slots| && slots[empty] == NO_ID
    ensures i < |slots| && slots[i] == NO_ID && TakenUpTo(slots, home, i)
  {
    i := home;
    while slots[i] != NO_ID
      invariant i < |slots| && Gap(home, i, |slots|) <= Gap(home, empty, |slots|)
      invariant TakenUpTo(slots, home, i)
      decreases Gap(home, empty, |slots|) - Gap(home, i, |slots|)
    {
      ProbeStep(slots, home, i, empty);
      i := NextSlot(i, |slots|);
    }
  }

  lemma DistinctPush(was: seq<Entry>, e: Entry)
    requires Distinct(was) && e !in was
    ensures Distinct(was + [e])
  {
  }

  lemma IndexPush(hash: Entry -> nat, was: seq<Entry>, slots: seq<BlockId>, e: Entry, i: nat)
    requires Indexed(Index(slots, Homes(hash, was), Below(|was|))) && |was| + 1 < NO_ID
    requires (|was| + 1) * 4 < |slots| * 3
    requires i < |slots| && slots[i] == NO_ID && TakenUpTo(slots, hash(e) % |slots|, i)
    ensures Indexed(Index(slots[i := |was|], Homes(hash, was + [e]), Below(|was|) + {|was|}))
  {
    var n, homes := |was|, Homes(hash, was + [e]);
    HomesPush(hash, was, e);
    HomesGrow(slots, Homes(hash, was), homes, Below(n));
    IndexInsert(slots, homes, Below(n), i, n);
  }

  lemma HomesPush(hash: Entry -> nat, was: seq<Entry>, e: Entry)
    ensures Homes(hash, was) <= Homes(hash, was + [e])
    ensures |Homes(hash, was + [e])| == |was| + 1 && Homes(hash, was + [e])[|was|] == hash(e)
  {
  }

  lemma BelowGrows(n: nat)
    ensures Below(n + 1) == Below(n) + {n}
  {
  }

  /** Adding an entry at the end, and its id at the slot its probe ended at. */
  lemma AppendIndexed(hash: Entry -> nat, was: seq<Entry>, slots: seq<BlockId>, e: Entry, i: nat)
    requires IndexOk(hash, Held(was, slots)) && e !in was && |was| + 1 < NO_ID && (|was| + 1) * 4 < |slots| * 3
    requires i < |slots| && slots[i] == NO_ID && TakenUpTo(slots, hash(e) % |slots|, i)
    ensures IndexOk(hash, Held(was + [e], slots[i := |was|]))
  {
    DistinctPush(was, e);
    IndexPush(hash, was, slots, e, i);
    BelowGrows(|was|);
    assert |was + [e]| == |was| + 1;
  }

  lemma HomesGrow(slots: seq<BlockId>, homes: seq<nat>, more: seq<nat>, ids: set<BlockId>)
    requires Indexed(Index(slots, homes, ids)) && homes <= more
    ensures Indexed(Index(slots, more, ids))
  {
    forall i | 0 <= i < |slots| && slots[i] != NO_ID ensures TakenUpTo(slots, more[slots[i]] % |slots|, i) {
      assert more[slots[i]] == homes[slots[i]];
    }
  }
}
