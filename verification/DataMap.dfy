/** What is known to be data: regions, each with its proof, and the bytes they
    cover between them (crates/e5r-analysis/src/data.rs). */
module DataMap {
  import opened Ordered
  import opened Image
  import opened Ranges

  /** A region and the rank of the proof behind it. */
  datatype Region = Region(range: Range, proof: nat)

  // --------------------------------------------------------- sets of addresses

  ghost function Addrs(r: Range): (s: set<Addr>)
    ensures forall a: Addr :: a in s <==> Holds(r, a)
  {
    set a: Addr | r.start <= a < r.end && Holds(r, a)
  }

  ghost function Union(rs: seq<Range>): set<Addr> {
    if rs == [] then {} else Union(rs[..|rs| - 1]) + Addrs(rs[|rs| - 1])
  }

  lemma {:induction false} UnionCovers(rs: seq<Range>)
    ensures forall a: Addr :: a in Union(rs) <==> Covers(rs, a)
  {
    if rs != [] {
      var last := |rs| - 1;
      UnionCovers(rs[..last]);
      CoversOneMore(rs, last);
      assert rs[..last + 1] == rs;
    }
  }

  function Length(r: Range): nat {
    if Empty(r) then 0 else r.end - r.start
  }

  lemma {:induction false} AddrsCount(r: Range)
    ensures |Addrs(r)| == Length(r)
    decreases r.end
  {
    if Empty(r) {
      assert Addrs(r) == {};
    } else {
      var less := Range(r.start, r.end - 1);
      AddrsCount(less);
      assert Addrs(r) == Addrs(less) + {r.end - 1};
    }
  }

  function Total(rs: seq<Range>): nat {
    if rs == [] then 0 else Total(rs[..|rs| - 1]) + Length(rs[|rs| - 1])
  }

  lemma CountApart(a: set<Addr>, b: set<Addr>)
    requires a !! b
    ensures |a + b| == |a| + |b|
  {
  }

  lemma Apart(rs: seq<Range>)
    requires Runs(rs) && rs != []
    ensures Union(rs[..|rs| - 1]) !! Addrs(rs[|rs| - 1])
  {
    var less := rs[..|rs| - 1];
    UnionCovers(less);
    forall a: Addr | Covers(less, a) ensures !Holds(rs[|rs| - 1], a) {
      var i :| 0 <= i < |less| && Holds(less[i], a);
      assert rs[i].end < rs[|rs| - 1].start;
    }
  }

  /** Runs hold each address once, so their lengths add up to how many there are. */
  lemma {:induction false} TotalCounts(rs: seq<Range>)
    requires Runs(rs)
    ensures Total(rs) == |Union(rs)|
  {
    if rs != [] {
      var last := |rs| - 1;
      TotalCounts(rs[..last]);
      AddrsCount(rs[last]);
      Apart(rs);
      CountApart(Union(rs[..last]), Addrs(rs[last]));
    }
  }

  function Clip(r: Range, span: Range): Range {
    Range(Higher(r.start, span.start), Lower(r.end, span.end))
  }

  function TotalIn(rs: seq<Range>, span: Range): nat {
    if rs == [] then 0 else TotalIn(rs[..|rs| - 1], span) + Length(Clip(rs[|rs| - 1], span))
  }

  lemma {:induction false} TotalInCounts(rs: seq<Range>, span: Range)
    requires Runs(rs)
    ensures TotalIn(rs, span) == |Union(rs) * Addrs(span)|
  {
    if rs != [] {
      var last := |rs| - 1;
      TotalInCounts(rs[..last], span);
      AddrsCount(Clip(rs[last], span));
      Apart(rs);
      ClipJoins(Union(rs[..last]), rs[last], span);
    }
  }

  lemma ClipJoins(less: set<Addr>, r: Range, span: Range)
    requires less !! Addrs(r)
    ensures |(less + Addrs(r)) * Addrs(span)| == |less * Addrs(span)| + |Addrs(Clip(r, span))|
  {
    assert Addrs(Clip(r, span)) == Addrs(r) * Addrs(span);
    assert (less + Addrs(r)) * Addrs(span) == less * Addrs(span) + Addrs(r) * Addrs(span);
    CountApart(less * Addrs(span), Addrs(r) * Addrs(span));
  }

  // ------------------------------------------------------------------ overlaps

  /** Whether a range meets any of a sorted disjoint list, by binary search. */
  predicate Overlaps(r: Range, sorted: seq<Range>) {
    var i := PartitionPoint(sorted, (c: Range) => c.end <= r.start);
    i < |sorted| && sorted[i].start < r.end
  }

  ghost predicate Meets(r: Range, rs: seq<Range>) {
    exists a: Addr :: Holds(r, a) && Covers(rs, a)
  }

  lemma OverlapsIff(r: Range, sorted: seq<Range>)
    requires Runs(sorted) && !Empty(r)
    ensures Overlaps(r, sorted) <==> Meets(r, sorted)
  {
    var i := PartitionPoint(sorted, (c: Range) => c.end <= r.start);
    if Overlaps(r, sorted) {
      var a := Higher(r.start, sorted[i].start);
      assert Holds(sorted[i], a) && Holds(r, a);
    }
    if a: Addr :| Holds(r, a) && Covers(sorted, a) {
      var k :| 0 <= k < |sorted| && Holds(sorted[k], a);
      assert k >= i;
      assert k > i ==> sorted[i].end < sorted[k].start;
    }
  }

  // ------------------------------------------------------------------- regions

  /** By address, then end, then proof, with no two alike. */
  predicate RegionBefore(a: Region, b: Region) {
    a.range.start < b.range.start ||
    (a.range.start == b.range.start &&
     (a.range.end < b.range.end || (a.range.end == b.range.end && a.proof < b.proof)))
  }

  ghost predicate Listed(rs: seq<Region>) {
    forall i, j :: 0 <= i < j < |rs| ==> RegionBefore(rs[i], rs[j])
  }

  function InsertRegion(rs: seq<Region>, r: Region): (out: seq<Region>)
    requires Listed(rs)
    ensures Listed(out) && forall x :: x in out <==> x == r || x in rs
  {
    if rs == [] then [r]
    else if r == rs[0] then rs
    else if RegionBefore(r, rs[0]) then
      assert forall x :: x in [r] + rs <==> x == r || x in rs;
      [r] + rs
    else
      var more := InsertRegion(rs[1..], r);
      assert forall x :: x in rs <==> x == rs[0] || x in rs[1..];
      assert forall x :: x in more ==> RegionBefore(rs[0], x);
      [rs[0]] + more
  }

  /** Sorted, with repeats dropped. */
  function SortRegions(rs: seq<Region>): (out: seq<Region>)
    ensures Listed(out) && forall x :: x in out <==> x in rs
  {
    if rs == [] then [] else
    assert forall x :: x in rs <==> x == rs[0] || x in rs[1..];
    InsertRegion(SortRegions(rs[1..]), rs[0])
  }

  function RangesOf(rs: seq<Region>): (out: seq<Range>)
    ensures |out| == |rs| && forall i :: 0 <= i < |rs| ==> out[i] == rs[i].range
  {
    seq(|rs|, i requires 0 <= i < |rs| => rs[i].range)
  }

  function Keep(rs: seq<Region>, code: seq<Range>): (out: seq<Region>)
    ensures forall r :: r in out <==> r in rs && !Empty(r.range) && !Overlaps(r.range, code)
  {
    if rs == [] then [] else
    assert forall r :: r in rs <==> r == rs[0] || r in rs[1..];
    (if !Empty(rs[0].range) && !Overlaps(rs[0].range, code) then [rs[0]] else []) + Keep(rs[1..], code)
  }

  /** How many candidates are empty or meet code. */
  ghost function Refusals(rs: seq<Region>, code: seq<Range>): nat {
    if rs == [] then 0 else
    (if Empty(rs[0].range) || Meets(rs[0].range, code) then 1 else 0) + Refusals(rs[1..], code)
  }

  lemma {:induction false} KeepCounts(rs: seq<Region>, code: seq<Range>)
    requires Runs(code)
    ensures |rs| == |Keep(rs, code)| + Refusals(rs, code)
  {
    if rs != [] {
      KeepCounts(rs[1..], code);
      if !Empty(rs[0].range) {
        OverlapsIff(rs[0].range, code);
      }
    }
  }

  // ------------------------------------------------------------------- the map

  datatype DataMap = DataMap(regions: seq<Region>, covered: seq<Range>, refused: nat) {
    /** The merged run holding an address, by binary search. */
    function RunAt(at: Addr): Option<Range> {
      var i := PartitionPoint(covered, (r: Range) => r.end <= at);
      if i < |covered| && Holds(covered[i], at) then Some(covered[i]) else None
    }

    predicate Contains(at: Addr) {
      RunAt(at).Some?
    }

    function EndOfRun(at: Addr): Option<Addr> {
      match RunAt(at) case None => None case Some(r) => Some(r.end)
    }

    function Bytes(): nat {
      Total(covered)
    }

    function BytesIn(span: Range): nat {
      TotalIn(covered, span)
    }

    /** Some region holds the address. */
    ghost predicate Marked(at: Addr) {
      exists i :: 0 <= i < |regions| && Holds(regions[i].range, at)
    }

    /** The merged list covers exactly what the regions do. */
    ghost predicate Valid() {
      Runs(covered) && forall a: Addr :: Covers(covered, a) <==> Marked(a)
    }
  }

  /** Assemble from candidates, refusing what overlaps code that was walked:
      exactly the candidates that are non-empty and meet no code are kept. */
  method Assemble(candidates: seq<Region>, code: seq<Range>) returns (m: DataMap)
    requires Runs(code)
    ensures m.Valid() && Listed(m.regions)
    ensures forall r :: r in m.regions <==> r in candidates && !Empty(r.range) && !Meets(r.range, code)
    ensures m.refused == Refusals(candidates, code)
    ensures forall a: Addr :: m.Marked(a) ==> !Covers(code, a)
  {
    var kept := Keep(candidates, code);
    KeepCounts(candidates, code);
    var refused := |candidates| - |kept|;
    var regions := SortRegions(kept);
    forall r | r in candidates && !Empty(r.range) ensures Overlaps(r.range, code) <==> Meets(r.range, code) {
      OverlapsIff(r.range, code);
    }
    forall i | 0 <= i < |regions| ensures !Empty(regions[i].range) && !Meets(regions[i].range, code) {
      assert regions[i] in regions;
    }
    var covered := Coalesce(RangesOf(regions));
    m := DataMap(regions, covered, refused);
    forall a: Addr ensures Covers(covered, a) <==> m.Marked(a) {
      RangesCover(regions, a);
    }
    forall a: Addr | m.Marked(a) ensures !Covers(code, a) {
      var i :| 0 <= i < |regions| && Holds(regions[i].range, a);
      assert !Meets(regions[i].range, code);
    }
  }

  lemma RangesCover(rs: seq<Region>, a: Addr)
    ensures Covers(RangesOf(rs), a) <==> exists i :: 0 <= i < |rs| && Holds(rs[i].range, a)
  {
    var ranges := RangesOf(rs);
    if Covers(ranges, a) {
      var i :| 0 <= i < |ranges| && Holds(ranges[i], a);
      assert Holds(rs[i].range, a);
    }
    if i :| 0 <= i < |rs| && Holds(rs[i].range, a) {
      assert Holds(ranges[i], a);
    }
  }

  /** The binary search finds the run that holds an address, if one does. */
  lemma RunAtFinds(m: DataMap, at: Addr)
    requires m.Valid()
    ensures m.RunAt(at).Some? <==> Covers(m.covered, at)
    ensures m.RunAt(at).Some? ==> m.RunAt(at).value in m.covered && Holds(m.RunAt(at).value, at)
  {
    var i := PartitionPoint(m.covered, (r: Range) => r.end <= at);
    if Covers(m.covered, at) {
      var k :| 0 <= k < |m.covered| && Holds(m.covered[k], at);
      assert k >= i;
    }
  }

  /** An address is data exactly when some region holds it. */
  lemma ContainsIff(m: DataMap, at: Addr)
    requires m.Valid()
    ensures m.Contains(at) <==> m.Marked(at)
  {
    RunAtFinds(m, at);
  }

  /** From an address that is data the run goes on without a break to its end,
      and no further; from any other there is no run. */
  lemma EndOfRunEnds(m: DataMap, at: Addr)
    requires m.Valid()
    ensures match m.EndOfRun(at)
      case None => !m.Marked(at)
      case Some(e) => (at < e && !m.Marked(e) && forall a: Addr :: at <= a < e ==> m.Marked(a))
  {
    RunAtFinds(m, at);
    if m.RunAt(at).Some? {
      var r := m.RunAt(at).value;
      var k :| 0 <= k < |m.covered| && m.covered[k] == r;
      forall a: Addr | at <= a < r.end ensures m.Marked(a) {
        assert Holds(m.covered[k], a);
      }
      assert !Covers(m.covered, r.end);
    }
  }

  /** Every marked byte is counted once, however many regions hold it. */
  lemma BytesCount(m: DataMap, marked: set<Addr>, span: Range)
    requires m.Valid() && forall a: Addr :: a in marked <==> m.Marked(a)
    ensures m.Bytes() == |marked|
    ensures m.BytesIn(span) == |marked * Addrs(span)|
  {
    TotalCounts(m.covered);
    TotalInCounts(m.covered, span);
    UnionCovers(m.covered);
    assert Union(m.covered) == marked;
  }

  /** The set a count is about exists. */
  lemma MarkedSet(m: DataMap) returns (marked: set<Addr>)
    requires m.Valid()
    ensures forall a: Addr :: a in marked <==> m.Marked(a)
  {
    marked := Union(m.covered);
    UnionCovers(m.covered);
  }
}
